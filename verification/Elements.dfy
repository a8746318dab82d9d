/** Calling a Python function on every element of a buffer, one after the other, up to the first failure
    (src/per_element.rs). */
module Elements {
  import opened Wrappers

  /** The sequential meaning every driver is measured against: all results, or the error of the first
      element that fails. */
  function MapAll<X, Y, E>(f: X -> Result<Y, E>, xs: seq<X>): Result<seq<Y>, E> {
    if xs == [] then Ok([])
    else
      var y :- f(xs[0]);
      var ys :- MapAll(f, xs[1..]);
      Ok([y] + ys)
  }

  /** It is a map exactly when every element succeeds... */
  lemma {:induction false} MapAllOk<X, Y, E>(f: X -> Result<Y, E>, xs: seq<X>, ys: seq<Y>)
    ensures MapAll(f, xs) == Ok(ys) <==> |ys| == |xs| && forall i | 0 <= i < |xs| :: f(xs[i]) == Ok(ys[i])
  {
    if xs != [] {
      if ys != [] {
        MapAllOk(f, xs[1..], ys[1..]);
        assert ys == [ys[0]] + ys[1..];
        if |ys| == |xs| && forall i | 0 <= i < |xs| :: f(xs[i]) == Ok(ys[i]) {
          assert forall i | 0 <= i < |xs[1..]| :: f(xs[1..][i]) == f(xs[i + 1]) == Ok(ys[1..][i]);
        }
        if MapAll(f, xs) == Ok(ys) {
          assert MapAll(f, xs[1..]) == Ok(ys[1..]);
          forall i | 0 <= i < |xs| ensures f(xs[i]) == Ok(ys[i]) {
            if i > 0 {
              assert f(xs[1..][i - 1]) == Ok(ys[1..][i - 1]);
            }
          }
        }
      }
    }
  }

  /** Everything before element `i` succeeds. */
  predicate AllBefore<X, Y, E>(f: X -> Result<Y, E>, xs: seq<X>, i: nat) {
    i <= |xs| && forall j | 0 <= j < i :: f(xs[j]).Ok?
  }

  /** ...and otherwise its error is that of the first element that fails. */
  lemma {:induction false} MapAllErr<X, Y, E>(f: X -> Result<Y, E>, xs: seq<X>, e: E)
    ensures MapAll(f, xs) == Err(e) <==> exists i: nat :: i < |xs| && AllBefore(f, xs, i) && f(xs[i]) == Err(e)
  {
    if xs != [] {
      MapAllErr(f, xs[1..], e);
      if f(xs[0]).Err? {
        assert AllBefore(f, xs, 0);
      } else {
        if i: nat :| i < |xs| && AllBefore(f, xs, i) && f(xs[i]) == Err(e) {
          assert i > 0 && xs[1..][i - 1] == xs[i];
          assert AllBefore(f, xs[1..], i - 1) by {
            forall j | 0 <= j < i - 1 ensures f(xs[1..][j]).Ok? {
              assert xs[1..][j] == xs[j + 1];
            }
          }
        }
        if i: nat :| i < |xs[1..]| && AllBefore(f, xs[1..], i) && f(xs[1..][i]) == Err(e) {
          assert AllBefore(f, xs, i + 1) by {
            forall j | 0 <= j < i + 1 ensures f(xs[j]).Ok? {
              if j > 0 {
                assert xs[j] == xs[1..][j - 1];
              }
            }
          }
        }
      }
    }
  }

  /** A buffer in two parts: the second counts only if the first succeeds. */
  lemma {:induction false} MapAllJoin<X, Y, E>(f: X -> Result<Y, E>, a: seq<X>, b: seq<X>)
    ensures MapAll(f, a + b) ==
            match MapAll(f, a)
            case Err(e) => Err(e)
            case Ok(ys) => (match MapAll(f, b) case Err(e) => Err(e) case Ok(zs) => Ok(ys + zs))
  {
    if a == [] {
      assert a + b == b;
      if MapAll(f, b).Ok? {
        assert [] + MapAll(f, b).value == MapAll(f, b).value;
      }
    } else {
      assert (a + b)[1..] == a[1..] + b;
      MapAllJoin(f, a[1..], b);
      if f(a[0]).Ok? && MapAll(f, a[1..]).Ok? && MapAll(f, b).Ok? {
        assert [f(a[0]).value] + (MapAll(f, a[1..]).value + MapAll(f, b).value) ==
               [f(a[0]).value] + MapAll(f, a[1..]).value + MapAll(f, b).value;
      }
    }
  }

  // ----- the loop over a buffer -----

  /** What calling a Python function gives: an object, or an exception. */
  datatype Reply<O, E> = Object(o: O) | Raised(e: E)

  /** The C conversion of an object to a machine number: a number, and whether an exception is set.  A
      failed conversion returns the sentinel, which is also an honest value. */
  datatype Unboxed<Y, E> = Unboxed(y: Y, pending: Option<E>)

  /** Calls and converts: the result of one element. */
  function Called<X, O, Y, E>(call: X -> Reply<O, E>, unbox: O -> Unboxed<Y, E>, x: X): Result<Y, E> {
    match call(x)
    case Raised(e) => Err(e)
    case Object(o) => if unbox(o).pending.Some? then Err(unbox(o).pending.value) else Ok(unbox(o).y)
  }

  /** `call_per_element_i64` and `_f64`: they look at the pending exception only when they see the
      sentinel, and a result that equals the sentinel is still a result. */
  method CallPerElement<X, O(!new), Y(==), E>(call: X -> Reply<O, E>, unbox: O -> Unboxed<Y, E>, sentinel: Y,
                                        input: seq<X>, output: array<Y>) returns (r: Result<(), E>)
    requires output.Length == |input|
    requires forall o :: unbox(o).pending.Some? ==> unbox(o).y == sentinel
    modifies output
    ensures match MapAll(x => Called(call, unbox, x), input)
            case Ok(ys) => r == Ok(()) && output[..] == ys
            case Err(e) => r == Err(e)
    ensures exists n: nat :: n <= |input| && AllBefore(x => Called(call, unbox, x), input, n)
              && (forall j | 0 <= j < n :: Called(call, unbox, input[j]) == Ok(output[j]))
              && output[n..] == old(output[n..]) && (n == |input| <==> r.Ok?)
  {
    ghost var f := x => Called(call, unbox, x);
    ghost var before := output[..];
    var j := 0;
    while j < |input|
      invariant j <= |input| && AllBefore(f, input, j)
      invariant forall i | 0 <= i < j :: Called(call, unbox, input[i]) == Ok(output[i])
      invariant output[j..] == before[j..]
    {
      var reply := call(input[j]);
      if reply.Raised? {
        MapAllErr(f, input, reply.e);
        return Err(reply.e);
      }
      var res := unbox(reply.o);
      if res.y == sentinel && res.pending.Some? {
        MapAllErr(f, input, res.pending.value);
        return Err(res.pending.value);
      }
      assert f(input[j]) == Ok(res.y);
      output[j] := res.y;
      j := j + 1;
    }
    MapAllOk(f, input, output[..]);
    r := Ok(());
  }
}
