/** One call over a buffer that is worked on chunk by chunk: what a chunk has written, how it fails, and
    what that says of the whole call. */
module ChunkWork {
  import opened Wrappers
  import opened Machine
  import opened Elements
  import C = Chunks

  /** A call: the function applied to each element, the input, and the chunk size. */
  datatype Req = Req(f: Val -> Result<Val, string>, inp: seq<Val>, size: nat)

  predicate Valid(r: Req) { r.size > 0 }

  function Count(r: Req): nat
    requires Valid(r)
  {
    C.DivCeil(|r.inp|, r.size)
  }

  function ChunkOf(r: Req, k: nat): C.Chunk
    requires Valid(r) && k < Count(r)
  {
    C.Nth(|r.inp|, r.size, k)
  }

  /** The first `n` elements of chunk `k` have succeeded and their results are in the output. */
  predicate Written(r: Req, out: seq<Val>, k: nat, n: nat)
    requires Valid(r) && k < Count(r)
  {
    var c := ChunkOf(r, k);
    |out| == |r.inp| && n <= c.len && forall i | c.start <= i < c.start + n :: r.f(r.inp[i]) == Ok(out[i])
  }

  /** The error chunk `k` ends with, if any: that of its first failing element. */
  function ChunkError(r: Req, k: nat): Option<string>
    requires Valid(r) && k < Count(r)
  {
    match MapAll(r.f, C.Slice(r.inp, ChunkOf(r, k)))
    case Ok(_) => None
    case Err(e) => Some(e)
  }

  /** The first error among chunks `0 .. n`. */
  function FirstError(r: Req, n: nat): Option<string>
    requires Valid(r) && n <= Count(r)
  {
    if n == 0 then None
    else if FirstError(r, n - 1).Some? then FirstError(r, n - 1)
    else ChunkError(r, n - 1)
  }

  // ----- one chunk -----

  lemma WrittenNext(r: Req, out: seq<Val>, k: nat, n: nat, v: Val)
    requires Valid(r) && k < Count(r) && Written(r, out, k, n) && n < ChunkOf(r, k).len
    requires r.f(r.inp[ChunkOf(r, k).start + n]) == Ok(v)
    ensures Written(r, out[ChunkOf(r, k).start + n := v], k, n + 1)
  {
  }

  /** Work on one chunk leaves what others have written alone. */
  lemma WrittenApart(r: Req, out: seq<Val>, k: nat, n: nat, other: nat, i: nat, v: Val)
    requires Valid(r) && k < Count(r) && other < Count(r) && k != other && Written(r, out, k, n)
    requires C.Holds(ChunkOf(r, other), i)
    ensures Written(r, out[i := v], k, n)
  {
    C.ExactlyOne(|r.inp|, r.size, i, k);
    C.ExactlyOne(|r.inp|, r.size, i, other);
  }

  lemma ChunkFails(r: Req, out: seq<Val>, k: nat, n: nat, e: string)
    requires Valid(r) && k < Count(r) && Written(r, out, k, n) && n < ChunkOf(r, k).len
    requires r.f(r.inp[ChunkOf(r, k).start + n]) == Err(e)
    ensures ChunkError(r, k) == Some(e)
  {
    var c := ChunkOf(r, k);
    var xs := C.Slice(r.inp, c);
    assert AllBefore(r.f, xs, n) by {
      forall j | 0 <= j < n ensures r.f(xs[j]).Ok? {
        assert xs[j] == r.inp[c.start + j];
      }
    }
    MapAllErr(r.f, xs, e);
  }

  lemma ChunkSucceeds(r: Req, out: seq<Val>, k: nat)
    requires Valid(r) && k < Count(r) && Written(r, out, k, ChunkOf(r, k).len)
    ensures ChunkError(r, k) == None
  {
    var c := ChunkOf(r, k);
    MapAllOk(r.f, C.Slice(r.inp, c), out[c.start..c.start + c.len]);
  }

  // ----- all chunks -----

  function End(r: Req, n: nat): nat
    requires Valid(r)
  {
    C.Min(n * r.size, |r.inp|)
  }

  /** The chunks up to `n` decide the elements before the end of chunk `n`. */
  lemma {:induction false} PrefixDecided(r: Req, n: nat)
    requires Valid(r) && n <= Count(r)
    ensures match MapAll(r.f, r.inp[..End(r, n)])
            case Ok(_) => FirstError(r, n) == None
            case Err(e) => FirstError(r, n) == Some(e)
  {
    if n == 0 {
      assert r.inp[..End(r, n)] == [];
    } else {
      PrefixDecided(r, n - 1);
      C.NthStarts(|r.inp|, r.size, n - 1);
      var c := ChunkOf(r, n - 1);
      assert r.inp[..End(r, n)] == r.inp[..End(r, n - 1)] + C.Slice(r.inp, c);
      MapAllJoin(r.f, r.inp[..End(r, n - 1)], C.Slice(r.inp, c));
    }
  }

  /** A call fails exactly when a chunk fails, and with the error of the first chunk that does, which is the
      error of the first element that does. */
  lemma CallFails(r: Req)
    requires Valid(r)
    ensures match MapAll(r.f, r.inp)
            case Ok(_) => FirstError(r, Count(r)) == None
            case Err(e) => FirstError(r, Count(r)) == Some(e)
  {
    hide FirstError, ChunkError;
    PrefixDecided(r, Count(r));
    C.DivCeilIs(|r.inp|, r.size);
    assert Count(r) * r.size == r.size * Count(r);
    assert r.inp[..End(r, Count(r))] == r.inp;
  }

  lemma {:induction false} FirstErrorIs(r: Req, n: nat)
    requires Valid(r) && n <= Count(r)
    ensures FirstError(r, n) == None <==> forall k | 0 <= k < n :: ChunkError(r, k) == None
  {
    if n > 0 {
      FirstErrorIs(r, n - 1);
    }
  }

  /** All chunks written: the output is the map. */
  lemma AllWritten(r: Req, out: seq<Val>)
    requires Valid(r) && |out| == |r.inp|
    requires forall k | 0 <= k < Count(r) :: Written(r, out, k, ChunkOf(r, k).len)
    ensures MapAll(r.f, r.inp) == Ok(out)
  {
    forall i | 0 <= i < |r.inp| ensures r.f(r.inp[i]) == Ok(out[i]) {
      var k := C.Owner(i, r.size);
      C.IsOwner(|r.inp|, r.size, i);
      assert Written(r, out, k, ChunkOf(r, k).len);
    }
    MapAllOk(r.f, r.inp, out);
  }
}
