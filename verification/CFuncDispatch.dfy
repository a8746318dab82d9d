/** Applying a C function in place over the chunks of a buffer (src/cfunc_dispatch.rs).  The chunks may be
    taken in any order, and any of them more than once would do no harm. */
module CFuncDispatch {
  import opened Wrappers
  import opened Machine
  import opened ChunkWork
  import C = Chunks
  import El = Elements
  import R = Rayon

  /** The loop over one chunk: writes there and nowhere else. */
  method ApplyChunk<X, Y>(f: X -> Y, xs: seq<X>, ys: array<Y>, c: C.Chunk)
    requires c.start + c.len <= |xs| == ys.Length
    modifies ys
    ensures forall i | 0 <= i < |xs| :: ys[i] == if C.Holds(c, i) then f(xs[i]) else old(ys[i])
  {
    for i := c.start to c.start + c.len
      invariant forall j | 0 <= j < |xs| :: ys[j] == if c.start <= j < i then f(xs[j]) else old(ys[j])
    {
      ys[i] := f(xs[i]);
    }
  }

  /** An order in which every one of `n` chunks is taken. */
  predicate Covers(order: seq<nat>, n: nat) {
    (forall j | 0 <= j < |order| :: order[j] < n) && (forall k | 0 <= k < n :: k in order)
  }

  /** `apply_in_parallel`: nothing for an empty buffer, one call for fewer elements than threads, otherwise
      one task per chunk, run in the order `order` says. */
  method ApplyInParallel<X, Y>(f: X -> Y, xs: seq<X>, ys: array<Y>, threads: nat, order: seq<nat>)
    requires ys.Length == |xs|
    requires Covers(order, C.DivCeil(|xs|, C.PickChunkSize(|xs|, C.Max(threads, 1))))
    modifies ys
    ensures forall i | 0 <= i < |xs| :: ys[i] == f(xs[i])
  {
    if |xs| == 0 {
      return;
    }
    var t := C.Max(threads, 1);
    if |xs| < t {
      ApplyChunk(f, xs, ys, C.Chunk(0, |xs|));
      return;
    }
    C.SizeBounded(|xs|, t);
    RunChunks(f, xs, ys, C.PickChunkSize(|xs|, t), order);
  }

  /** One task per chunk, in the given order. */
  method RunChunks<X, Y>(f: X -> Y, xs: seq<X>, ys: array<Y>, size: nat, order: seq<nat>)
    requires ys.Length == |xs| && size > 0
    requires Covers(order, C.DivCeil(|xs|, size))
    modifies ys
    ensures forall i | 0 <= i < |xs| :: ys[i] == f(xs[i])
  {
    hide C.DivCeil, C.Nth, C.Split;
    var chunks := C.Split(0, |xs|, size);
    C.ChunkAt(|xs|, size);
    for m := 0 to |order|
      invariant forall j | 0 <= j < m :: Applied(f, xs, ys[..], chunks[order[j]])
    {
      ghost var before := ys[..];
      ApplyChunk(f, xs, ys, chunks[order[m]]);
      forall j | 0 <= j < m ensures Applied(f, xs, ys[..], chunks[order[j]]) {
        assert Applied(f, xs, before, chunks[order[j]]);
      }
    }
    AllApplied(f, xs, ys[..], size, order);
  }

  lemma AllApplied<X, Y>(f: X -> Y, xs: seq<X>, ys: seq<Y>, size: nat, order: seq<nat>)
    requires |ys| == |xs| && size > 0
    requires Covers(order, C.DivCeil(|xs|, size))
    requires forall j | 0 <= j < |order| :: Applied(f, xs, ys, C.Nth(|xs|, size, order[j]))
    ensures forall i | 0 <= i < |xs| :: ys[i] == f(xs[i])
  {
    hide C.DivCeil, C.Nth;
    forall i | 0 <= i < |xs| ensures ys[i] == f(xs[i]) {
      C.IsOwner(|xs|, size, i);
      var k := C.Owner(i, size);
      assert k in order;
      var j :| 0 <= j < |order| && order[j] == k;
      assert Applied(f, xs, ys, C.Nth(|xs|, size, order[j]));
    }
  }

  predicate Applied<X, Y(==)>(f: X -> Y, xs: seq<X>, ys: seq<Y>, c: C.Chunk) {
    c.start + c.len <= |xs| == |ys| && forall i | c.start <= i < c.start + c.len :: ys[i] == f(xs[i])
  }

  // ----- interleaved -----

  /** A C function cannot fail. */
  function Applying(f: Val -> Val, xs: seq<Val>, size: nat): Req { Req(x => Ok(f(x)), xs, size) }

  /** On the task pool the chunks write the one output buffer element by element, in any interleaving: every
      schedule ends without an error and with each index holding its own value, and none is longer than
      the work there is. */
  lemma EveryScheduleApplies(f: Val -> Val, xs: seq<Val>, size: nat, out: seq<Val>, schedule: seq<R.Step>, end: R.State)
    requires size > 0 && |out| == |xs|
    requires var r := Applying(f, xs, size); R.Reaches(r, R.Start(r, out), schedule, end)
    ensures var r := Applying(f, xs, size);
            && |schedule| + R.Left(r, end, 0) <= R.Left(r, R.Start(r, out), 0)
            && (R.Joined(r, end) ==> end.firstErr == None && |end.out| == |xs| && forall i | 0 <= i < |xs| :: end.out[i] == f(xs[i]))
  {
    hide R.Reaches, R.Joined, R.Left, C.DivCeil, C.Nth, El.MapAll;
    var r := Applying(f, xs, size);
    R.StartInv(r, out);
    R.SchedulesAreShort(r, R.Start(r, out), schedule, end);
    if R.Joined(r, end) {
      R.EveryScheduleIsSequential(r, out, schedule, end);
      var ys := seq(|xs|, i requires 0 <= i < |xs| => f(xs[i]));
      El.MapAllOk(r.f, xs, ys);
    }
  }
}
