/** Python's integer expressions evaluated in machine words: wrapping sums, truncating division that traps,
    both arms of a conditional.  That is what the compiled code computes for every input; this file says when it
    is what Python computes. */
module WordArithmetic {
  import opened Wrappers
  import opened Ir
  import opened Machine
  import opened PySemantics
  import Py = PyAst

  // ----- evaluation in words -----

  function WordArith(op: Py.Operator, a: I64, b: I64): Option<I64> {
    match op
    case Add => Some(Wrap(a + b))
    case Sub => Some(Wrap(a - b))
    case Mult => Some(Wrap(a * b))
    case FloorDiv => if b == 0 || (a == -TWO_63 && b == -1) then None else Some(Wrap(TruncDiv(a, b)))
    case Mod => if b == 0 then None else Some(Wrap(TruncRem(a, b)))
    case _ => None
  }

  /** None if a division traps, in either arm of a conditional, or a name is unbound. */
  function WordEval(e: Py.Expr, env: Env): Option<I64> {
    match e
    case Name(id) => if id in env && InI64(env[id]) then Some(env[id]) else None
    case IntConst(n) => if InI64(n) then Some(n) else None
    case BoolConst(b) => Some(if b then 1 else 0)
    case UnaryExpr(op, a) =>
      var v :- WordEval(a, env);
      (match op case USub => Some(Wrap(0 - v)) case UAdd => Some(v) case _ => None)
    case BinExpr(op, l, r) =>
      var u :- WordEval(l, env);
      var v :- WordEval(r, env);
      WordArith(op, u, v)
    case Compare(l, ops, rs) =>
      if |ops| == 1 && |rs| == 1 then
        var u :- WordEval(l, env);
        var v :- WordEval(rs[0], env);
        var b :- Test(ops[0], u, v);
        Some(if b then 1 else 0)
      else None
    case IfExp(t, y, n) =>
      var c :- WordEval(t, env);
      var u :- WordEval(y, env);
      var v :- WordEval(n, env);
      Some(if c != 0 then u else v)
    case Call(f, args, kw) =>
      if f == "int" && |args| == 1 && !kw then WordEval(args[0], env) else None
    case _ => None
  }

  predicate FitsI64(v: Option<int>) { v.Some? && InI64(v.value) }

  /** Nothing traps, whatever the value. */
  predicate Runs(e: Py.Expr, env: Env) { WordEval(e, env).Some? }

  /** Python evaluates `e` to an i64, and on the way nothing is lost. */
  predicate Fits(e: Py.Expr, env: Env)
    decreases e, 1
  {
    FitsI64(Eval(e, env)) && Tracks(e, env)
  }

  /** The words stay congruent to Python's integers.  Sums, differences, products and negations may leave the
      range of an i64; what is divided, compared or tested, and every quotient, must be in it.  Rounding must
      agree.  The arm of a conditional that Python does not take must not trap. */
  predicate Tracks(e: Py.Expr, env: Env)
    decreases e, 0
  {
    Eval(e, env).Some? &&
    match e
    case Name(id) => InI64(env[id])
    case IntConst(n) => InI64(n)
    case UnaryExpr(_, a) => Tracks(a, env)
    case BinExpr(op, l, r) =>
      if op.FloorDiv? || op.Mod? then
        Fits(l, env) && Fits(r, env) && RoundsAlike(Eval(l, env).value, Eval(r, env).value) && FitsI64(Eval(e, env))
      else Tracks(l, env) && Tracks(r, env)
    case Compare(l, _, rs) => Fits(l, env) && Fits(rs[0], env)
    case IfExp(t, y, n) =>
      Fits(t, env) && if Eval(t, env).value != 0 then Tracks(y, env) && Runs(n, env) else Runs(y, env) && Tracks(n, env)
    case Call(_, args, _) => Tracks(args[0], env)
    case _ => true
  }

  // ----- division -----

  /** Rounding towards zero and rounding down coincide. */
  predicate RoundsAlike(a: int, b: int)
    requires b != 0
  {
    a % b == 0 || (a < 0) == (b < 0)
  }

  lemma NoSmallMultiple(d: int, k: int)
    requires d > 0 && -d < d * k < d
    ensures k == 0
  {
    assert k >= 1 ==> d * k >= d * 1;
    assert k <= -1 ==> d * k <= d * -1;
  }

  /** Quotient and remainder are determined by the division equation. */
  lemma Divides(a: int, b: int, q: int, r: int)
    requires b != 0 && a == b * q + r && 0 <= r < Abs(b)
    ensures a / b == q && a % b == r
  {
    var p, u := a / b, a % b;
    assert a == b * p + u && 0 <= u < Abs(b);
    assert b * (p - q) == b * p - b * q;
    assert b * (q - p) == b * q - b * p;
    if b > 0 {
      NoSmallMultiple(b, p - q);
    } else {
      assert (-b) * (q - p) == b * (p - q);
      NoSmallMultiple(-b, q - p);
    }
  }

  /** Division rounding down, from the quotient and remainder of the magnitudes: the signs agree... */
  lemma FloorAgreeing(a: int, b: int, p: int, u: int)
    requires b != 0 && (a < 0) == (b < 0) && p >= 0 && 0 <= u < Abs(b) && Abs(a) == Abs(b) * p + u
    ensures FloorQuotient(a, b) == p && FloorRemainder(a, b) == if a < 0 then -u else u
  {
    if b > 0 {
      Divides(a, b, p, u);
    } else {
      assert (-b) * p == -(b * p) && b * (p + 1) == b * p + b;
      if u == 0 { Divides(a, b, p, 0); } else { Divides(a, b, p + 1, -b - u); }
    }
  }

  /** ...or they differ. */
  lemma FloorDiffering(a: int, b: int, p: int, u: int)
    requires b != 0 && (a < 0) != (b < 0) && p >= 0 && 0 <= u < Abs(b) && Abs(a) == Abs(b) * p + u
    ensures FloorQuotient(a, b) == (if u == 0 then -p else -p - 1)
    ensures FloorRemainder(a, b) == if u == 0 then 0 else if a < 0 then b - u else b + u
    ensures a % b == 0 <==> u == 0
  {
    assert (-b) * p == -(b * p) && b * -p == -(b * p) && b * (-p - 1) == -(b * p) - b;
    if b < 0 {
      Divides(a, b, -p, u);
    } else if u == 0 {
      Divides(a, b, -p, 0);
    } else {
      Divides(a, b, -p - 1, b - u);
    }
  }

  /** Hardware division is Python's exactly when the division is exact or the signs agree. */
  lemma TruncIsFloor(a: int, b: int)
    requires b != 0
    ensures TruncDiv(a, b) == FloorQuotient(a, b) <==> RoundsAlike(a, b)
    ensures TruncRem(a, b) == FloorRemainder(a, b) <==> RoundsAlike(a, b)
  {
    hide FloorQuotient, FloorRemainder;
    var p, u := Abs(a) / Abs(b), Abs(a) % Abs(b);
    assert Abs(a) == Abs(b) * p + u && 0 <= u < Abs(b);
    if (a < 0) == (b < 0) {
      FloorAgreeing(a, b, p, u);
    } else {
      FloorDiffering(a, b, p, u);
    }
  }

  /** What hardware division gives: the one quotient whose remainder is smaller than the divisor and has the sign of
      the dividend. */
  lemma TruncIs(a: int, b: int, q: int, r: int)
    requires b != 0
    ensures q == TruncDiv(a, b) && r == TruncRem(a, b) <==> IsTrunc(a, b, q, r)
  {
    var p, u := Abs(a) / Abs(b), Abs(a) % Abs(b);
    TruncMeets(a, b, p, u, TruncDiv(a, b), TruncRem(a, b));
    if IsTrunc(a, b, q, r) {
      TruncUnique(a, b, q, r);
    }
    hide IsTrunc;
  }

  lemma TruncMeets(a: int, b: int, p: int, u: int, q: int, r: int)
    requires b != 0 && Abs(a) == Abs(b) * p + u && 0 <= u < Abs(b)
    requires q == (if (a < 0) == (b < 0) then p else -p) && r == if a < 0 then -u else u
    ensures IsTrunc(a, b, q, r)
  {
    Signs(a, b, q, r);
  }

  lemma TruncUnique(a: int, b: int, q: int, r: int)
    requires b != 0 && IsTrunc(a, b, q, r)
    ensures Abs(a) / Abs(b) == (if (a < 0) == (b < 0) then q else -q) && Abs(a) % Abs(b) == Abs(r)
  {
    Signs(a, b, q, r);
    Divides(Abs(a), Abs(b), if (a < 0) == (b < 0) then q else -q, Abs(r));
  }

  predicate IsTrunc(a: int, b: int, q: int, r: int) {
    a == b * q + r && Abs(r) < Abs(b) && (r == 0 || (r < 0) == (a < 0))
  }

  /** The same on magnitudes. */
  lemma Signs(a: int, b: int, q: int, r: int)
    requires b != 0 && (r == 0 || (r < 0) == (a < 0))
    ensures a == b * q + r <==> Abs(a) == Abs(b) * (if (a < 0) == (b < 0) then q else -q) + Abs(r)
  {
    assert (-b) * q == -(b * q) && b * -q == -(b * q) && (-b) * -q == b * q;
  }

  // ----- words and integers -----

  lemma WrapShift(n: int, k: int)
    ensures Wrap(n + TWO_64 * k) == Wrap(n)
  {
    var a, b := n + TWO_63, n + TWO_64 * k + TWO_63;
    assert b == TWO_64 * (a / TWO_64 + k) + a % TWO_64;
    Divides(b, TWO_64, a / TWO_64 + k, a % TWO_64);
  }

  /** What wrapping takes off. */
  function Carry(n: int): int { (n + TWO_63) / TWO_64 }

  lemma WrapIs(n: int)
    ensures n == Wrap(n) + TWO_64 * Carry(n)
  {
  }

  lemma WrapSum(a: int, b: int)
    ensures Wrap(Wrap(a) + Wrap(b)) == Wrap(a + b) && Wrap(Wrap(a) - Wrap(b)) == Wrap(a - b)
  {
    hide Wrap, Carry;
    WrapIs(a);
    WrapIs(b);
    WrapShift(Wrap(a) + Wrap(b), Carry(a) + Carry(b));
    WrapShift(Wrap(a) - Wrap(b), Carry(a) - Carry(b));
  }

  lemma WrapProduct(a: int, b: int)
    ensures Wrap(Wrap(a) * Wrap(b)) == Wrap(a * b)
  {
    hide Wrap, Carry;
    WrapIs(a);
    WrapIs(b);
    var u, v, p, q := Wrap(a), Wrap(b), Carry(a), Carry(b);
    var k := u * q + p * v + TWO_64 * (p * q);
    assert (u + TWO_64 * p) * (v + TWO_64 * q) == u * v + TWO_64 * k by {
      assert u * (TWO_64 * q) == TWO_64 * (u * q);
      assert (TWO_64 * p) * v == TWO_64 * (p * v);
      assert (TWO_64 * p) * (TWO_64 * q) == TWO_64 * (TWO_64 * (p * q));
    }
    WrapShift(u * v, k);
  }

  /** One operation on words that stand for integers. */
  lemma ArithTracks(op: Py.Operator, a: int, b: int)
    requires Arith(op, a, b).Some?
    requires op.FloorDiv? || op.Mod? ==> InI64(a) && InI64(b) && RoundsAlike(a, b) && FitsI64(Arith(op, a, b))
    ensures WordArith(op, Wrap(a), Wrap(b)) == Some(Wrap(Arith(op, a, b).value))
  {
    hide TruncDiv, TruncRem, FloorQuotient, FloorRemainder, RoundsAlike, Wrap;
    WrapSum(a, b);
    WrapProduct(a, b);
    if op.FloorDiv? || op.Mod? {
      WrapInRange(a);
      WrapInRange(b);
      TruncIsFloor(a, b);
      if op.FloorDiv? && a == -TWO_63 && b == -1 {
        LargestQuotient();
      }
    }
  }

  lemma LargestQuotient()
    ensures FloorQuotient(-TWO_63, -1) == TWO_63
  {
  }

  /** Where words track integers, evaluation in words gives the low 64 bits of Python's value. */
  lemma {:induction false} TracksWord(e: Py.Expr, env: Env)
    requires Tracks(e, env)
    ensures WordEval(e, env) == Some(Wrap(Eval(e, env).value))
    decreases e, 0
  {
    match e
    case Name(id) => WrapInRange(env[id]);
    case IntConst(n) => WrapInRange(n);
    case BoolConst(_) =>
    case UnaryExpr(_, a) =>
      TracksWord(a, env);
      hide Wrap;
      WrapInRange(0);
      WrapSum(0, Eval(a, env).value);
    case BinExpr(op, l, r) =>
      TracksWord(l, env);
      TracksWord(r, env);
      ArithTracks(op, Eval(l, env).value, Eval(r, env).value);
    case Compare(l, _, rs) =>
      FitsWord(l, env);
      FitsWord(rs[0], env);
    case IfExp(t, y, n) =>
      FitsWord(t, env);
      if Eval(t, env).value != 0 {
        TracksWord(y, env);
      } else {
        TracksWord(n, env);
      }
    case Call(_, args, _) => TracksWord(args[0], env);
  }

  /** An expression that fits has Python's value. */
  lemma {:induction false} FitsWord(e: Py.Expr, env: Env)
    requires Fits(e, env)
    ensures WordEval(e, env) == Eval(e, env)
    decreases e, 1
  {
    TracksWord(e, env);
    WrapInRange(Eval(e, env).value);
  }
}
