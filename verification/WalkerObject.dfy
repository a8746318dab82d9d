/** The walker as the object it is: one table of locals and one output dtype, updated statement by statement
    while the IR is collected in lists.  Its methods do exactly what the functions of `Walker` say. */
module WalkerObject {
  import opened Wrappers
  import opened Ir
  import W = Walker
  import Py = PyAst

  class Walker {
    const param: string
    const inputDtype: Dtype
    var locals: W.Types
    var outputDtype: Option<Dtype>

    constructor (param: string, inputDtype: Dtype)
      ensures Fn() == W.Fn(param, inputDtype) && St() == W.State(map[], None)
    {
      this.param := param;
      this.inputDtype := inputDtype;
      locals := map[];
      outputDtype := None;
    }

    function Fn(): W.Fn { W.Fn(param, inputDtype) }

    function St(): W.State reads this { W.State(locals, outputDtype) }

    /** The IR of an expression: reads the table of locals, changes nothing. */
    method Expr(e: Py.Expr) returns (r: W.Walked<(Expr, Dtype)>)
      ensures r == W.WalkExpr(Fn(), locals, e)
    {
      r := W.WalkExpr(Fn(), locals, e);
    }

    method RecordReturn(d: Dtype) returns (r: W.Walked<()>)
      modifies this`outputDtype
      ensures match W.RecordReturn(old(St()), d)
              case Ok(s) => r == Ok(()) && St() == s
              case Err(e) => r == Err(e) && St() == old(St())
    {
      if outputDtype == None {
        outputDtype := Some(d);
      } else if outputDtype != Some(d) {
        return Err(W.ReturnMismatch);
      }
      r := Ok(());
    }

    /** What walking `rest` from the present state adds to what is collected. */
    ghost predicate Continues(all: W.Walked<(seq<Stmt>, bool, W.State)>, out: seq<Stmt>, rest: seq<Py.Stmt>)
      reads this
    {
      match W.WalkList(Fn(), St(), rest)
      case Ok((ir, t, s)) => all == Ok((out + ir, t, s))
      case Err(e) => all == Err(e)
    }

    method Stmts(statements: seq<Py.Stmt>) returns (r: W.Walked<(seq<Stmt>, bool)>)
      modifies this
      ensures match W.WalkBody(Fn(), old(St()), statements)
              case Ok((ir, t, s)) => r == Ok((ir, t)) && St() == s
              case Err(e) => r == Err(e)
      decreases statements, 1
    {
      var body := Py.StripDocstring(statements);
      var out: seq<Stmt> := [];
      var terminated := false;
      ghost var all := W.WalkList(Fn(), St(), body);
      var i := 0;
      Begins(all, body);
      while i < |body| && !terminated
        invariant 0 <= i <= |body|
        invariant !terminated ==> Continues(all, out, body[i..])
        invariant terminated ==> all == Ok((out, true, St()))
      {
        hide W.WalkStmt;
        Next(body, i);
        var one := Stmt(body[i]);
        if one.Err? {
          return Err(one.error);
        }
        assert out + ([one.value.0] + []) == out + [one.value.0];
        out := out + [one.value.0];
        terminated := one.value.1;
        i := i + 1;
        if !terminated {
          Collected(all, out[..|out| - 1], one.value.0, body[i..]);
        }
      }
      if !terminated {
        Finished(all, out, body[i..]);
      }
      r := Ok((out, terminated));
    }

    lemma Begins(all: W.Walked<(seq<Stmt>, bool, W.State)>, body: seq<Py.Stmt>)
      requires all == W.WalkList(Fn(), St(), body)
      ensures Continues(all, [], body[0..])
    {
      assert body[0..] == body;
      if all.Ok? {
        assert [] + all.value.0 == all.value.0;
      }
    }

    lemma Next(body: seq<Py.Stmt>, i: nat)
      requires i < |body|
      ensures body[i..][0] == body[i] && body[i..][1..] == body[i + 1..]
    {
    }

    lemma Collected(all: W.Walked<(seq<Stmt>, bool, W.State)>, out: seq<Stmt>, ir: Stmt, rest: seq<Py.Stmt>)
      requires match W.WalkList(Fn(), St(), rest)
               case Ok((more, t, s)) => all == Ok((out + ([ir] + more), t, s))
               case Err(e) => all == Err(e)
      ensures Continues(all, out + [ir], rest)
    {
      hide W.WalkList;
      match W.WalkList(Fn(), St(), rest)
      case Ok((more, t, s)) => assert out + [ir] + more == out + ([ir] + more);
      case Err(_) =>
    }

    lemma Finished(all: W.Walked<(seq<Stmt>, bool, W.State)>, out: seq<Stmt>, rest: seq<Py.Stmt>)
      requires Continues(all, out, rest) && rest == []
      ensures all == Ok((out, false, St()))
    {
      assert out + [] == out;
    }

    method Stmt(stmt: Py.Stmt) returns (r: W.Walked<(Stmt, bool)>)
      modifies this
      ensures match W.WalkStmt(Fn(), old(St()), stmt)
              case Ok((ir, t, s)) => r == Ok((ir, t)) && St() == s
              case Err(e) => r == Err(e)
      decreases stmt, 0
    {
      hide W.WalkExpr, W.WalkBody, W.WalkRange;
      match stmt
      case Assign(ts, e) =>
        if |ts| != 1 || !ts[0].Name? {
          return Err(W.BadTarget);
        }
        var v := Expr(e);
        if v.Err? {
          return Err(v.error);
        }
        locals := locals[ts[0].id := v.value.1];
        r := Ok((Assign(ts[0].id, v.value.1, v.value.0), false));
      case AugAssign(t, op, e) =>
        r := AugAssign(t, op, e);
      case Return(result) =>
        if result.None? {
          return Err(W.EmptyReturn);
        }
        var v := Expr(result.value);
        if v.Err? {
          return Err(v.error);
        }
        var rec := RecordReturn(v.value.1);
        if rec.Err? {
          return Err(rec.error);
        }
        r := Ok((Return(v.value.0), true));
      case If(test, yes, no) =>
        var c := Expr(test);
        if c.Err? {
          return Err(c.error);
        }
        var a := Stmts(yes);
        if a.Err? {
          return Err(a.error);
        }
        if no == [] {
          return Ok((If(c.value.0, a.value.0, []), false));
        }
        var b := Stmts(no);
        if b.Err? {
          return Err(b.error);
        }
        r := Ok((If(c.value.0, a.value.0, b.value.0), a.value.1 && b.value.1));
      case For(target, iter, body, orelse) =>
        if !target.Name? {
          return Err(W.BadTarget);
        }
        if orelse != [] {
          return Err(W.ElseClause);
        }
        var bounds := Range(iter);
        if bounds.Err? {
          return Err(bounds.error);
        }
        locals := locals[target.id := I64];
        var b := Stmts(body);
        if b.Err? {
          return Err(b.error);
        }
        r := Ok((ForRange(target.id, bounds.value.0, bounds.value.1, b.value.0), false));
      case While(test, body, orelse) =>
        if orelse != [] {
          return Err(W.ElseClause);
        }
        var c := Expr(test);
        if c.Err? {
          return Err(c.error);
        }
        var b := Stmts(body);
        if b.Err? {
          return Err(b.error);
        }
        r := Ok((While(c.value.0, b.value.0), false));
      case Break => r := Ok((Break, true));
      case Continue => r := Ok((Continue, true));
      case _ => r := Err(W.UnsupportedNode);
    }

    method AugAssign(t: Py.Expr, op: Py.Operator, e: Py.Expr) returns (r: W.Walked<(Stmt, bool)>)
      ensures match W.WalkStmt(Fn(), St(), Py.AugAssign(t, op, e))
              case Ok((ir, term, s)) => r == Ok((ir, term)) && St() == s
              case Err(error) => r == Err(error)
    {
      hide W.WalkExpr;
      if !t.Name? {
        return Err(W.BadTarget);
      }
      if t.id !in locals {
        return Err(W.UnknownName);
      }
      if W.BinOpOf(op).Err? {
        return Err(W.BinOpOf(op).error);
      }
      var left := Expr(t);
      if left.Err? {
        return Err(left.error);
      }
      var right := Expr(e);
      if right.Err? {
        return Err(right.error);
      }
      var (u, v, d) := W.Promote(left.value.0, left.value.1, right.value.0, right.value.1);
      if d != locals[t.id] {
        return Err(W.AugChangesType);
      }
      r := Ok((Assign(t.id, d, Binary(W.BinOpOf(op).value, u, v)), false));
    }

    method Range(e: Py.Expr) returns (r: W.Walked<(Expr, Expr)>)
      ensures r == W.WalkRange(Fn(), locals, e)
    {
      hide W.WalkExpr;
      if !(e.Call? && e.func == "range" && !e.keywords && 1 <= |e.args| <= 2) {
        return Err(W.BadRange);
      }
      var a := Expr(e.args[0]);
      if a.Err? {
        return Err(a.error);
      }
      if |e.args| == 1 {
        return Ok((ConstI64(0), W.AsI64(a.value.0, a.value.1)));
      }
      var b := Expr(e.args[1]);
      if b.Err? {
        return Err(b.error);
      }
      r := Ok((W.AsI64(a.value.0, a.value.1), W.AsI64(b.value.0, b.value.1)));
    }
  }

  /** The kernel for a callable, or nothing if it is rejected (`try_compile`, up to code generation). */
  method TryCompile(c: W.Callable, inT: Dtype) returns (k: Option<Kernel>)
    ensures k == W.KernelOf(c, inT)
  {
    if |c.params| != 1 {
      return None;
    }
    var walker := new Walker(c.params[0], inT);
    match c
    case Lambda(_, e) =>
      var v := walker.Expr(e);
      if v.Err? {
        return None;
      }
      k := Some(Kernel(inT, v.value.1, [Return(v.value.0)]));
    case Def(_, body) =>
      hide W.WalkBody;
      var b := walker.Stmts(body);
      if b.Err? || !b.value.1 {
        return None;
      }
      k := Some(Kernel(inT, if walker.outputDtype.Some? then walker.outputDtype.value else inT, b.value.0));
  }
}
