/** The code generator as it runs: a function builder that is mutated instruction by instruction, and
    the `Lowerer` that drives it.  Nothing can be emitted into a block that already has a terminator,
    and a block can be given only one. */
module LowererObject {
  import opened Wrappers
  import opened Ir
  import opened Cfg
  import L = Lowering
  import Shape

  class FunctionBuilder {
    var blocks: seq<Block>
    var cur: nat
    var nvals: nat
    var nvars: nat

    ghost predicate Open() reads this { cur < |blocks| && blocks[cur].term.None? }

    constructor (params: nat)
      ensures blocks == [] && cur == 0 && nvals == params && nvars == 0
    {
      blocks, cur, nvals, nvars := [], 0, params, 0;
    }

    method CreateBlock() returns (b: nat)
      modifies this`blocks
      ensures b == |old(blocks)| && blocks == old(blocks) + [EMPTY]
    {
      b := |blocks|;
      blocks := blocks + [EMPTY];
    }

    method SwitchToBlock(b: nat)
      modifies this`cur
      ensures cur == b
    {
      cur := b;
    }

    method DeclareVar() returns (v: nat)
      modifies this`nvars
      ensures v == old(nvars) && nvars == old(nvars) + 1
    {
      v := nvars;
      nvars := nvars + 1;
    }

    /** Emits an instruction that yields a new value. */
    method Inst(i: Instr) returns (v: nat)
      requires Open() && !i.DefVar? && !i.StoreAt? && i.dst == nvals
      modifies this`blocks, this`nvals
      ensures v == old(nvals) && nvals == old(nvals) + 1
      ensures blocks == old(blocks)[cur := Block(old(blocks[cur]).instrs + [i], None)]
    {
      v := nvals;
      nvals := nvals + 1;
      blocks := blocks[cur := Block(blocks[cur].instrs + [i], None)];
    }

    /** Emits an instruction that only has an effect. */
    method Effect(i: Instr)
      requires Open() && (i.DefVar? || i.StoreAt?)
      modifies this`blocks
      ensures blocks == old(blocks)[cur := Block(old(blocks[cur]).instrs + [i], None)]
    {
      blocks := blocks[cur := Block(blocks[cur].instrs + [i], None)];
    }

    method Terminate(t: Terminator)
      requires Open()
      modifies this`blocks
      ensures blocks == old(blocks)[cur := Block(old(blocks[cur]).instrs, Some(t))]
    {
      blocks := blocks[cur := Block(blocks[cur].instrs, Some(t))];
    }
  }

  class Lowerer {
    const builder: FunctionBuilder
    const target: L.Target
    var locals: L.Locals
    var terminated: bool
    var loops: seq<L.LoopFrame>

    ghost function State(): L.Build
      reads this, builder
    {
      L.Build(builder.blocks, builder.cur, builder.nvals, builder.nvars, locals, terminated, loops)
    }

    constructor (builder: FunctionBuilder, target: L.Target)
      ensures this.builder == builder && this.target == target
      ensures locals == map[] && !terminated && loops == []
    {
      this.builder := builder;
      this.target := target;
      locals, terminated, loops := map[], false, [];
    }

    /** Exactly `code` was appended to the current block, taking value numbers up to `next`. */
    twostate predicate Emitted(code: seq<Instr>, next: nat)
      reads this, builder
    {
      builder.Open() && builder.nvals == next && State() == L.Emit(old(State()), code, next)
    }

    /** Emits one instruction that yields a new value. */
    method Value(i: Instr) returns (v: nat)
      requires builder.Open() && !i.DefVar? && !i.StoreAt? && i.dst == builder.nvals
      modifies builder`blocks, builder`nvals
      ensures v == old(builder.nvals) && Emitted([i], v + 1)
    {
      v := builder.Inst(i);
    }

    method Coerce(v: nat, actual: Dtype, want: Dtype) returns (r: nat)
      requires builder.Open()
      modifies builder`blocks, builder`nvals
      ensures var c := L.Coerced(L.Code([], old(builder.nvals), v), actual, want);
              r == c.res && Emitted(c.instrs, c.next)
    {
      EmitNothing(State());
      if actual == want {
        r := v;
      } else if actual == I64 {
        assert [] + [FromSint(builder.nvals, v)] == [FromSint(builder.nvals, v)];
        r := builder.Inst(FromSint(builder.nvals, v));
      } else {
        assert [] + [ToSint(builder.nvals, v)] == [ToSint(builder.nvals, v)];
        r := builder.Inst(ToSint(builder.nvals, v));
      }
    }

    /** Emits the code of an expression and returns its value, or fails as `ExprCode` does. */
    method LowerExpr(e: Expr, want: Dtype) returns (r: L.Lowered<nat>)
      requires builder.Open()
      modifies builder`blocks, builder`nvals
      ensures match L.ExprCode(target, locals, e, want, old(builder.nvals))
              case Ok(k) => r == Ok(k.res) && Emitted(k.instrs, k.next)
              case Err(x) => r == Err(x)
      decreases e, 1
    {
      hide L.Emit, L.LeafCode, L.UnaryCode, L.BinaryCode, L.CompareCode, L.IfExprCode;
      match e {
        case Unary(_, _) => r := LowerUnary(e, want);
        case MathCall(_, _) => r := LowerUnary(e, want);
        case CastToI64(_) => r := LowerUnary(e, want);
        case CastToF64(_) => r := LowerUnary(e, want);
        case Binary(_, _, _) => r := LowerBinary(e, want);
        case Compare(_, _, _) => r := LowerCompare(e, want);
        case IfExpr(_, _, _) => r := LowerIfExpr(e, want);
        case _ => r := LowerLeaf(e, want);
      }
    }

    method LowerLeaf(e: Expr, want: Dtype) returns (r: L.Lowered<nat>)
      requires builder.Open() && L.IsLeaf(e)
      modifies builder`blocks, builder`nvals
      ensures match L.LeafCode(target, locals, e, want, old(builder.nvals))
              case Ok(k) => r == Ok(k.res) && Emitted(k.instrs, k.next)
              case Err(x) => r == Err(x)
      decreases e, 0
    {
      match e {
        case Param =>
          var v := Coerce(target.param, target.inT, want);
          r := Ok(v);
        case Local(name) =>
          if name !in locals {
            return Err(L.UnknownLocal);
          }
          var v := Load(UseVar(builder.nvals, locals[name].v), locals[name].d, want);
          r := Ok(v);
        case ConstI64(n) =>
          var v := Load(Iconst(builder.nvals, n), I64, want);
          r := Ok(v);
        case ConstF64(w) =>
          var v := Load(F64const(builder.nvals, w), F64, want);
          r := Ok(v);
        case ConstBool(b) =>
          var v := Value(Iconst(builder.nvals, if b then 1 else 0));
          r := Ok(v);
      }
    }

    /** Emits an instruction that yields a value of dtype `actual`, and the conversion its consumer wants. */
    method Load(i: Instr, actual: Dtype, want: Dtype) returns (r: nat)
      requires builder.Open() && !i.DefVar? && !i.StoreAt? && i.dst == builder.nvals
      modifies builder`blocks, builder`nvals
      ensures var n := old(builder.nvals);
              var c := L.Coerced(L.Code([i], n + 1, n), actual, want);
              r == c.res && Emitted(c.instrs, c.next)
    {
      hide L.Emit;
      ghost var s := State();
      var u := Value(i);
      r := Coerce(u, actual, want);
      ghost var c := L.Coerced(L.Code([], u + 1, u), actual, want);
      EmitMore(s, [i], c.instrs, u + 1, c.next);
      assert [i] + c.instrs == L.Coerced(L.Code([i], u + 1, u), actual, want).instrs;
    }

    method LowerUnary(e: Expr, want: Dtype) returns (r: L.Lowered<nat>)
      requires builder.Open() && L.IsUnary(e)
      modifies builder`blocks, builder`nvals
      ensures match L.UnaryCode(target, locals, e, want, old(builder.nvals))
              case Ok(k) => r == Ok(k.res) && Emitted(k.instrs, k.next)
              case Err(x) => r == Err(x)
      decreases e, 0
    {
      hide L.Emit, L.ExprCode;
      if e.MathCall? && want != F64 {
        return Err(L.MathNeedsF64);
      }
      ghost var s := State();
      var (a, d) := L.Operand(e, want);
      ghost var k := L.ExprCode(target, locals, a, d, builder.nvals);
      var v :- LowerExpr(a, d);
      if e.Unary? && e.uop == Plus {
        return Ok(v);
      }
      var i := L.UnaryInstr(e, want, builder.nvals, v);
      EmitMore(s, k.value.instrs, [i], k.value.next, builder.nvals + 1);
      v := Value(i);
      r := Ok(v);
    }

    method LowerBinary(e: Expr, want: Dtype) returns (r: L.Lowered<nat>)
      requires builder.Open() && e.Binary?
      modifies builder`blocks, builder`nvals
      ensures match L.BinaryCode(target, locals, e, want, old(builder.nvals))
              case Ok(k) => r == Ok(k.res) && Emitted(k.instrs, k.next)
              case Err(x) => r == Err(x)
      decreases e, 0
    {
      hide L.Emit, L.ExprCode, L.BinInstr;
      ghost var s := State();
      ghost var a := L.ExprCode(target, locals, e.left, want, builder.nvals);
      var u :- LowerExpr(e.left, want);
      ghost var b := L.ExprCode(target, locals, e.right, want, builder.nvals);
      var v :- LowerExpr(e.right, want);
      EmitMore(s, a.value.instrs, b.value.instrs, a.value.next, b.value.next);
      ghost var i := L.BinInstr(e.bop, want, builder.nvals, u, v);
      r := BinOp(e.bop, u, v, want);
      if r.Ok? {
        EmitMore(s, a.value.instrs + b.value.instrs, [i.value], b.value.next, b.value.next + 1);
      }
    }

    method LowerCompare(e: Expr, want: Dtype) returns (r: L.Lowered<nat>)
      requires builder.Open() && e.Compare?
      modifies builder`blocks, builder`nvals
      ensures match L.CompareCode(target, locals, e, old(builder.nvals))
              case Ok(k) => r == Ok(k.res) && Emitted(k.instrs, k.next)
              case Err(x) => r == Err(x)
      decreases e, 0
    {
      hide L.Emit, L.ExprCode, L.GuessCmpDtype;
      ghost var s := State();
      var d := L.GuessCmpDtype(target, locals, e.cleft, e.cright);
      ghost var a := L.ExprCode(target, locals, e.cleft, d, builder.nvals);
      var u :- LowerExpr(e.cleft, d);
      ghost var b := L.ExprCode(target, locals, e.cright, d, builder.nvals);
      var v :- LowerExpr(e.cright, d);
      EmitMore(s, a.value.instrs, b.value.instrs, a.value.next, b.value.next);
      var i := L.CmpInstr(e.cop, d, builder.nvals, u, v);
      EmitMore(s, a.value.instrs + b.value.instrs, [i], b.value.next, b.value.next + 1);
      v := Value(i);
      r := Ok(v);
    }

    method LowerIfExpr(e: Expr, want: Dtype) returns (r: L.Lowered<nat>)
      requires builder.Open() && e.IfExpr?
      modifies builder`blocks, builder`nvals
      ensures match L.IfExprCode(target, locals, e, want, old(builder.nvals))
              case Ok(k) => r == Ok(k.res) && Emitted(k.instrs, k.next)
              case Err(x) => r == Err(x)
      decreases e, 0
    {
      hide L.Emit, L.ExprCode;
      ghost var s := State();
      ghost var a := L.ExprCode(target, locals, e.test, I64, builder.nvals);
      var c :- LowerExpr(e.test, I64);
      ghost var b := L.ExprCode(target, locals, e.yes, want, builder.nvals);
      var u :- LowerExpr(e.yes, want);
      EmitMore(s, a.value.instrs, b.value.instrs, a.value.next, b.value.next);
      ghost var d := L.ExprCode(target, locals, e.no, want, builder.nvals);
      var v :- LowerExpr(e.no, want);
      ghost var ab := a.value.instrs + b.value.instrs;
      EmitMore(s, ab, d.value.instrs, b.value.next, d.value.next);
      var i := Select(builder.nvals, c, u, v);
      EmitMore(s, ab + d.value.instrs, [i], d.value.next, d.value.next + 1);
      v := Value(i);
      r := Ok(v);
    }

    method BinOp(op: BinOp, l: nat, r: nat, want: Dtype) returns (v: L.Lowered<nat>)
      requires builder.Open()
      modifies builder`blocks, builder`nvals
      ensures match L.BinInstr(op, want, old(builder.nvals), l, r)
              case Ok(i) => v == Ok(old(builder.nvals)) && Emitted([i], old(builder.nvals) + 1)
              case Err(x) => v == Err(x)
    {
      match want {
        case I64 =>
          var o :- L.IntOpFor(op);
          var u := Value(IntBin(builder.nvals, o, l, r));
          v := Ok(u);
        case F64 =>
          var o :- L.FloatOpFor(op);
          var u := Value(FloatBin(builder.nvals, o, l, r));
          v := Ok(u);
      }
    }

    // ----- statements -----

    /** The lowering did what the function says, or failed as it says. */
    ghost predicate Agrees(r: L.Lowered<()>, spec: L.Lowered<L.Build>)
      reads this, builder
    {
      match spec
      case Ok(st) => r.Ok? && State() == st
      case Err(x) => r == Err(x)
    }

    method LowerBody(ss: seq<Stmt>) returns (r: L.Lowered<()>)
      requires Shape.Ready(target, State())
      modifies this, builder
      ensures Agrees(r, L.LowerBody(target, old(State()), ss))
      decreases ss, 0
    {
      hide L.LowerStmt, Shape.Ready, Shape.Partly;
      ghost var spec := L.LowerBody(target, State(), ss);
      var i := 0;
      assert ss[0..] == ss;
      while i < |ss| && !terminated
        invariant 0 <= i <= |ss| && Shape.Ready(target, State())
        invariant L.LowerBody(target, State(), ss[i..]) == spec
      {
        ghost var st := State();
        assert ss[i..][0] == ss[i] && ss[i..][1..] == ss[i + 1..];
        var _ :- LowerStmt(ss[i]);
        Shape.StmtGrows(target, st, ss[i]);
        i := i + 1;
      }
      r := Ok(());
    }

    method LowerStmt(s: Stmt) returns (r: L.Lowered<()>)
      requires Shape.Ready(target, State()) && !terminated
      modifies this, builder
      ensures Agrees(r, L.LowerStmt(target, old(State()), s))
      decreases s, 1
    {
      ghost var st := State();
      match s {
        case Assign(name, d, e) => r := LowerAssign(s);
        case Return(e) =>
          var v :- LowerExpr(e, target.outT);
          ghost var k := L.ExprCode(target, locals, e, target.outT, st.nvals).value;
          EmitMore(st, k.instrs, [DefVar(L.RESULT_VAR, v)], k.next, k.next);
          builder.Effect(DefVar(L.RESULT_VAR, v));
          builder.Terminate(Jump(target.exit));
          terminated := true;
          r := Ok(());
        case Break =>
          if loops == [] {
            return Err(L.BreakOutsideLoop);
          }
          builder.Terminate(Jump(loops[|loops| - 1].exit));
          terminated := true;
          r := Ok(());
        case Continue =>
          if loops == [] {
            return Err(L.ContinueOutsideLoop);
          }
          builder.Terminate(Jump(loops[|loops| - 1].header));
          terminated := true;
          r := Ok(());
        case If(_, _, _) => r := LowerIf(s);
        case While(_, _) => r := LowerWhile(s);
        case ForRange(_, _, _, _) => r := LowerFor(s);
      }
    }

    /** The variable behind a local, declared if this is its first use. */
    method Variable(name: string, d: Dtype) returns (v: nat)
      modifies this`locals, builder`nvars
      ensures State() == L.Declare(old(State()), name, d) && v == L.VarOf(old(State()), name)
    {
      if name in locals {
        v := locals[name].v;
      } else {
        v := builder.DeclareVar();
        locals := locals[name := L.Slot(v, d)];
      }
    }

    method LowerAssign(s: Stmt) returns (r: L.Lowered<()>)
      requires Shape.Ready(target, State()) && !terminated && s.Assign?
      modifies this, builder
      ensures Agrees(r, L.LowerStmt(target, old(State()), s))
      decreases s, 0
    {
      hide L.ExprCode;
      ghost var st := State();
      ghost var k := L.ExprCode(target, locals, s.value, s.dtype, st.nvals);
      var v :- LowerExpr(s.value, s.dtype);
      if s.name in locals && locals[s.name].d != s.dtype {
        return Err(L.LocalRedeclared);
      }
      var x := Variable(s.name, s.dtype);
      EmitMore(L.Declare(st, s.name, s.dtype), k.value.instrs, [DefVar(x, v)], k.value.next, k.value.next);
      builder.Effect(DefVar(x, v));
      r := Ok(());
    }

    /** Goes on at block `b`, falling through to `next` if the current block was not left. */
    method FallThrough(next: nat, b: nat)
      requires terminated || builder.Open()
      modifies builder`blocks, builder`cur, this`terminated
      ensures State() == L.Fill(old(State()), next, b)
    {
      if !terminated {
        builder.Terminate(Jump(next));
      }
      builder.SwitchToBlock(b);
      terminated := false;
    }

    /** The blocks of a conditional and the branch. */
    method IfHead(ghost st: L.Build, ghost k: L.Code, c: nat) returns (thenBlock: nat, elseBlock: nat, contBlock: nat)
      requires L.Open(st) && State() == L.Emit(st, k.instrs, k.next) && builder.Open() && c == k.res
      modifies this, builder
      ensures State() == L.IfHead(st, k)
      ensures (thenBlock, elseBlock, contBlock) == (|st.blocks|, |st.blocks| + 1, |st.blocks| + 2)
    {
      hide L.Emit;
      ghost var em := State();
      EmitShape(st, k.instrs, k.next);
      thenBlock := builder.CreateBlock();
      elseBlock := builder.CreateBlock();
      contBlock := builder.CreateBlock();
      builder.Terminate(Brif(c, thenBlock, elseBlock));
      builder.SwitchToBlock(thenBlock);
      terminated := false;
      ThreeBlocks(em);
    }

    method LowerIf(s: Stmt) returns (r: L.Lowered<()>)
      requires Shape.Ready(target, State()) && !terminated && s.If?
      modifies this, builder
      ensures Agrees(r, L.LowerStmt(target, old(State()), s))
      decreases s, 0
    {
      hide L.ExprCode, L.LowerBody, Shape.Ready, Shape.Partly, Shape.Going, L.Fill, L.Emit, L.IfHead;
      ghost var st, b := State(), |builder.blocks|;
      ghost var k := L.ExprCode(target, locals, s.test, I64, st.nvals);
      Started(target, st);
      var c :- LowerExpr(s.test, I64);
      var thenBlock, elseBlock, contBlock := IfHead(st, k.value, c);
      Shape.IfHeadGoing(target, st, k.value);
      Shape.GoingReady(target, st, State(), {b + 1, b + 2});
      ghost var st0 := State();
      var _ :- LowerBody(s.thenBody);
      Shape.BodyGrows(target, st0, s.thenBody);
      Shape.GoingBody(target, st, st0, State(), {b + 1, b + 2});
      Shape.BlockCount(st0, State());
      Shape.GoingFill(target, st, State(), {b + 1, b + 2}, b + 2, b + 1, {b + 2});
      Started(target, State());
      FallThrough(contBlock, elseBlock);
      Shape.GoingReady(target, st, State(), {b + 2});
      ghost var st2 := State();
      var _ :- LowerBody(s.elseBody);
      Shape.BodyGrows(target, st2, s.elseBody);
      Started(target, State());
      FallThrough(contBlock, contBlock);
      r := Ok(());
    }

    /** The blocks of a `while` loop and the jump to its header. */
    method WhileEntry(ghost st: L.Build) returns (header: nat, bodyBlock: nat, exit: nat)
      requires State() == st && builder.Open()
      modifies this, builder
      ensures State() == L.WhileEntry(st) && builder.Open() && builder.nvals == st.nvals && locals == st.locals
      ensures (header, bodyBlock, exit) == (|st.blocks|, |st.blocks| + 1, |st.blocks| + 2)
    {
      header := builder.CreateBlock();
      bodyBlock := builder.CreateBlock();
      exit := builder.CreateBlock();
      builder.Terminate(Jump(header));
      builder.SwitchToBlock(header);
      terminated := false;
      ThreeBlocks(st);
    }

    method LowerWhile(s: Stmt) returns (r: L.Lowered<()>)
      requires Shape.Ready(target, State()) && !terminated && s.While?
      modifies this, builder
      ensures Agrees(r, L.LowerStmt(target, old(State()), s))
      decreases s, 0
    {
      hide L.ExprCode, L.LowerBody, Shape.Ready, Shape.Partly, Shape.Going, L.Fill, L.Emit, L.WhileEntry;
      ghost var st, b := State(), |builder.blocks|;
      ghost var k := L.ExprCode(target, locals, s.cond, I64, st.nvals);
      Started(target, st);
      var header, bodyBlock, exit := WhileEntry(st);
      ghost var head := State();
      var c :- LowerExpr(s.cond, I64);
      EmitShape(head, k.value.instrs, k.value.next);
      builder.Terminate(Brif(c, bodyBlock, exit));
      builder.SwitchToBlock(bodyBlock);
      terminated := false;
      assert State() == L.WhileHead(st, k.value);
      Shape.WhileHeadGoing(target, st, k.value);
      r := LoopBody(st, s.wbody, header, exit);
    }

    /** The body of a loop, between pushing and popping its frame, and the way on to its exit. */
    method LoopBody(ghost st: L.Build, body: seq<Stmt>, next: nat, exit: nat) returns (r: L.Lowered<()>)
      requires Shape.Going(target, st, State(), {|st.blocks| + 2}) && exit == |st.blocks| + 2 < |State().blocks| && next < |State().blocks|
      modifies this, builder
      ensures match L.LowerBody(target, L.PushLoop(old(State()), L.LoopFrame(next, exit)), body)
              case Ok(st1) => r.Ok? && State() == L.Fill(L.PopLoop(st1), next, exit)
              case Err(x) => r == Err(x)
      decreases body, 1
    {
      hide L.LowerBody, Shape.Ready, Shape.Partly, Shape.Going, L.Fill;
      Shape.PushReady(target, st, State(), {|st.blocks| + 2}, L.LoopFrame(next, exit));
      loops := loops + [L.LoopFrame(next, exit)];
      ghost var st0 := State();
      var _ :- LowerBody(body);
      Shape.BodyGrows(target, st0, body);
      loops := loops[..|loops| - 1];
      Started(target, State());
      FallThrough(next, exit);
      r := Ok(());
    }

    method LowerFor(s: Stmt) returns (r: L.Lowered<()>)
      requires Shape.Ready(target, State()) && !terminated && s.ForRange?
      modifies this, builder
      ensures Agrees(r, L.LowerStmt(target, old(State()), s))
      decreases s, 0
    {
      hide L.ExprCode, L.LowerBody, Shape.Ready, Shape.Partly, Shape.Going, L.Fill, L.Emit, L.ForEntry, L.ForHeader, L.ForHead;
      ghost var st, b := State(), |builder.blocks|;
      ghost var from := L.ExprCode(target, locals, s.start, I64, st.nvals);
      Started(target, st);
      var start :- LowerExpr(s.start, I64);
      ghost var to := L.ExprCode(target, locals, s.end, I64, builder.nvals);
      var end :- LowerExpr(s.end, I64);
      var incBlock, exit := ForHead(st, s.loopVar, from.value, to.value, start, end);
      Shape.ForHeadGoing(target, st, s.loopVar, from.value, to.value);
      Shape.PushReady(target, st, State(), {b + 2}, L.LoopFrame(incBlock, exit));
      loops := loops + [L.LoopFrame(incBlock, exit)];
      ghost var st0 := State();
      var _ :- LowerBody(s.body);
      Shape.BodyGrows(target, st0, s.body);
      loops := loops[..|loops| - 1];
      Started(target, State());
      FallThrough(incBlock, exit);
      r := Ok(());
    }

    /** All of a counted loop that comes before its body. */
    method ForHead(ghost st: L.Build, v: string, ghost from: L.Code, ghost to: L.Code, start: nat, end: nat)
      returns (incBlock: nat, exit: nat)
      requires L.Open(st) && State() == L.Emit(L.Emit(st, from.instrs, from.next), to.instrs, to.next)
      requires builder.Open() && builder.nvals == to.next && start == from.res && end == to.res
      modifies this, builder
      ensures State() == L.ForHead(st, v, from, to) && incBlock == |st.blocks| + 3 && exit == |st.blocks| + 2
    {
      hide L.Emit, L.ForEntry, L.ForHeader, L.ForHead;
      var header, bodyBlock, out, counter := ForEntry(st, v, from, to, start);
      exit := out;
      incBlock := ForTest(st, v, from, to, counter, end, bodyBlock, exit);
      ForIncrement(st, v, from, to, counter, header, bodyBlock);
    }

    /** The first value of the counter and the jump to the header of a counted loop. */
    method ForEntry(ghost st: L.Build, v: string, ghost from: L.Code, ghost to: L.Code, start: nat)
      returns (header: nat, bodyBlock: nat, exit: nat, counter: nat)
      requires L.Open(st) && State() == L.Emit(L.Emit(st, from.instrs, from.next), to.instrs, to.next)
      requires builder.Open() && builder.nvals == to.next && start == from.res
      modifies this, builder
      ensures State() == L.ForEntry(st, v, from, to) && builder.Open() && builder.nvals == to.next
      ensures (header, bodyBlock, exit) == (|st.blocks|, |st.blocks| + 1, |st.blocks| + 2) && |builder.blocks| == |st.blocks| + 3
      ensures counter == L.VarOf(st, v)
    {
      hide L.Emit;
      EmitShape(st, from.instrs, from.next);
      EmitShape(L.Emit(st, from.instrs, from.next), to.instrs, to.next);
      counter := Variable(v, I64);
      ghost var d := State();
      Effect(DefVar(counter, start));
      EntryEmitted(st, v, from, to, DefVar(counter, start));
      EmitShape(d, [DefVar(counter, start)], to.next);
      ghost var em := State();
      header := builder.CreateBlock();
      bodyBlock := builder.CreateBlock();
      exit := builder.CreateBlock();
      builder.Terminate(Jump(header));
      builder.SwitchToBlock(header);
      terminated := false;
      ThreeBlocks(em);
    }

    /** The header of a counted loop, and the increment block `continue` goes through. */
    method ForTest(ghost st: L.Build, ghost v: string, ghost from: L.Code, ghost to: L.Code,
                   counter: nat, end: nat, bodyBlock: nat, exit: nat) returns (incBlock: nat)
      requires State() == L.ForEntry(st, v, from, to) && builder.Open()
      requires builder.nvals == to.next && counter == L.VarOf(st, v) && end == to.res
      requires bodyBlock == |st.blocks| + 1 && exit == |st.blocks| + 2 && |builder.blocks| == |st.blocks| + 3
      modifies this`terminated, builder
      ensures State() == L.ForHeader(st, v, from, to) && builder.Open() && builder.nvals == to.next + 2
      ensures incBlock == |st.blocks| + 3
    {
      hide L.Emit, L.ForEntry;
      ghost var e := State();
      var i := Value(UseVar(builder.nvals, counter));
      var cont := Value(Icmp(builder.nvals, Lt, i, end));
      EmitMore(e, [UseVar(i, counter)], [Icmp(i + 1, Lt, i, end)], i + 1, i + 2);
      assert [UseVar(i, counter)] + [Icmp(i + 1, Lt, i, end)] == L.ForTest(i, counter, end);
      EmitShape(e, L.ForTest(i, counter, end), i + 2);
      builder.Terminate(Brif(cont, bodyBlock, exit));
      ghost var closed := State();
      incBlock := builder.CreateBlock();
      builder.SwitchToBlock(incBlock);
      terminated := false;
      OneBlock(closed);
    }

    method ForIncrement(ghost st: L.Build, ghost v: string, ghost from: L.Code, ghost to: L.Code,
                        counter: nat, header: nat, bodyBlock: nat)
      requires State() == L.ForHeader(st, v, from, to) && builder.Open()
      requires builder.nvals == to.next + 2 && counter == L.VarOf(st, v)
      requires header == |st.blocks| && bodyBlock == |st.blocks| + 1
      modifies this`terminated, builder
      ensures State() == L.ForHead(st, v, from, to)
    {
      hide L.Emit, L.ForHeader;
      ghost var h := State();
      var i := Value(UseVar(builder.nvals, counter));
      var one := Value(Iconst(builder.nvals, 1));
      EmitMore(h, [UseVar(i, counter)], [Iconst(one, 1)], i + 1, i + 2);
      ghost var two := [UseVar(i, counter)] + [Iconst(one, 1)];
      var next := Value(IntBin(builder.nvals, Iadd, i, one));
      EmitMore(h, two, [IntBin(next, Iadd, i, one)], i + 2, i + 3);
      EmitMore(h, two + [IntBin(next, Iadd, i, one)], [DefVar(counter, next)], i + 3, i + 3);
      assert two + [IntBin(next, Iadd, i, one)] + [DefVar(counter, next)] == L.ForStep(i, counter);
      Effect(DefVar(counter, next));
      builder.Terminate(Jump(header));
      builder.SwitchToBlock(bodyBlock);
      terminated := false;
    }

    method Effect(i: Instr)
      requires builder.Open() && (i.DefVar? || i.StoreAt?)
      modifies builder`blocks
      ensures Emitted([i], builder.nvals)
    {
      builder.Effect(i);
    }
  }

  lemma OneBlock(st: L.Build)
    ensures L.NewBlocks(st, 1).blocks == st.blocks + [EMPTY]
  {
  }

  lemma EntryEmitted(st: L.Build, v: string, a: L.Code, b: L.Code, i: Instr)
    requires L.Open(st)
    ensures L.Emit(L.Declare(L.Emit(L.Emit(st, a.instrs, a.next), b.instrs, b.next), v, I64), [i], b.next) ==
            L.Emit(L.Declare(st, v, I64), a.instrs + b.instrs + [i], b.next)
  {
    EmitMore(st, a.instrs, b.instrs, a.next, b.next);
    assert st.blocks[st.cur].instrs + (a.instrs + b.instrs) + [i] == st.blocks[st.cur].instrs + (a.instrs + b.instrs + [i]);
  }

  lemma Started(t: L.Target, st: L.Build)
    requires Shape.Ready(t, st)
    ensures st.cur < |st.blocks| && (st.terminated || L.Open(st))
  {
  }

  lemma EmitShape(st: L.Build, code: seq<Instr>, n: nat)
    requires st.cur < |st.blocks|
    ensures var r := L.Emit(st, code, n);
            |r.blocks| == |st.blocks| && r.cur == st.cur && r.locals == st.locals && r.loops == st.loops && r.nvars == st.nvars
            && r.terminated == st.terminated
  {
  }

  lemma ThreeBlocks(st: L.Build)
    ensures L.NewBlocks(st, 3).blocks == st.blocks + [EMPTY] + [EMPTY] + [EMPTY]
  {
  }

  lemma EmitNothing(st: L.Build)
    requires L.Open(st)
    ensures L.Emit(st, [], st.nvals) == st
  {
    assert st.blocks[st.cur].instrs + [] == st.blocks[st.cur].instrs;
  }

  lemma EmitMore(st: L.Build, a: seq<Instr>, b: seq<Instr>, m: nat, n: nat)
    requires L.Open(st)
    ensures L.Emit(L.Emit(st, a, m), b, n) == L.Emit(st, a + b, n)
  {
    assert st.blocks[st.cur].instrs + a + b == st.blocks[st.cur].instrs + (a + b);
  }
}
