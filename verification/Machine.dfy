/** Small result types shared by every module. */
module Wrappers {
  datatype Option<+T> = None | Some(value: T) {
    predicate IsFailure() { None? }
    function PropagateFailure<U>(): Option<U> requires None? { None }
    function Extract(): T requires Some? { value }
  }

  datatype Result<+T, +E> = Ok(value: T) | Err(error: E) {
    predicate IsFailure() { Err? }
    function PropagateFailure<U>(): Result<U, E> requires Err? { Err(error) }
    function Extract(): T requires Ok? { value }
  }
}

/** The machine words a compiled kernel computes on.  An i64 is an integer in two's-complement
    range with explicit wrap-around.  An f64 is its 64-bit pattern; what the hardware does with
    such patterns is a parameter (an `Fpu`), so every theorem holds for any floating-point unit. */
module Machine {
  import opened Wrappers
  import opened Ir

  const TWO_63: int := 0x8000_0000_0000_0000
  const TWO_64: int := 0x1_0000_0000_0000_0000

  /** The i64 with the low 64 bits of `n`. */
  function Wrap(n: int): I64 {
    (n + TWO_63) % TWO_64 - TWO_63
  }

  function Unsigned(n: I64): nat {
    if n < 0 then n + TWO_64 else n
  }

  datatype Fpu = Fpu(
    add: (F64, F64) -> F64,
    sub: (F64, F64) -> F64,
    mul: (F64, F64) -> F64,
    div: (F64, F64) -> F64,
    pow: (F64, F64) -> F64,
    neg: F64 -> F64,
    cmp: (CmpOp, F64, F64) -> bool,
    math: (MathFn, F64) -> F64,
    fromInt: I64 -> F64,
    toInt: F64 -> Option<I64>)   // None: NaN or out of range, the conversion traps

  /** A Cranelift value: a scalar, the 8-bit result of a scalar comparison, or a 2-lane vector. */
  datatype Val =
    | IntV(n: I64)
    | FltV(w: F64)
    | FlagV(b: bool)
    | IntX2(n0: I64, n1: I64)
    | FltX2(w0: F64, w1: F64)

  predicate HasType(v: Val, d: Dtype) {
    match d
    case I64 => v.IntV?
    case F64 => v.FltV?
  }

  /** Division rounding towards zero, and its remainder. */
  function TruncDiv(a: int, b: int): int
    requires b != 0
  {
    if (a < 0) == (b < 0) then Abs(a) / Abs(b) else -(Abs(a) / Abs(b))
  }

  function TruncRem(a: int, b: int): int
    requires b != 0
  {
    if a < 0 then -(Abs(a) % Abs(b)) else Abs(a) % Abs(b)
  }

  function Abs(a: int): nat { if a < 0 then -a else a }

  function IntCmp(op: CmpOp, a: int, b: int): bool {
    match op
    case Lt => a < b
    case Le => a <= b
    case Gt => a > b
    case Ge => a >= b
    case Eq => a == b
    case Ne => a != b
  }

  /** What a branch, or the condition of a `select`, takes a value for. */
  function Truth(v: Val): Option<bool> {
    match v
    case IntV(n) => Some(n != 0)
    case FlagV(b) => Some(b)
    case _ => None
  }

  function Zero(d: Dtype): Val {
    match d
    case I64 => IntV(0)
    case F64 => FltV(0)
  }

  lemma WrapInRange(n: int)
    requires -TWO_63 <= n < TWO_63
    ensures Wrap(n) == n
  {
  }
}
