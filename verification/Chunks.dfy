/** How a buffer is cut into chunks: `pick_chunk_size`, the slices that `chunks` yields, and the offset loop
    that walks them. */
module Chunks {
  const CHUNKS_PER_WORKER: nat := 4
  const MAX_CHUNK: nat := 4096

  function Max(a: nat, b: nat): nat { if a < b then b else a }

  function Min(a: nat, b: nat): nat { if a < b then a else b }

  function DivCeil(a: nat, b: nat): nat
    requires b > 0
  {
    if a % b == 0 then a / b else a / b + 1
  }

  /** The number of chunks asked for. */
  function Wanted(len: nat, threads: nat): (n: nat)
    ensures len > 0 ==> 0 < n <= len
  {
    Min(len, Max(Max(threads * CHUNKS_PER_WORKER, DivCeil(len, MAX_CHUNK)), 1))
  }

  function PickChunkSize(len: nat, threads: nat): nat {
    if len == 0 then 1 else DivCeil(len, Wanted(len, threads))
  }

  /** The least `q` with `a <= b * q`. */
  lemma DivCeilIs(a: nat, b: nat)
    requires b > 0
    ensures var q := DivCeil(a, b); a <= b * q && (a > 0 ==> q > 0 && b * (q - 1) < a) && (a == 0 ==> q == 0)
  {
    var q := a / b;
    assert a == b * q + a % b;
    assert b * (q + 1) == b * q + b;
  }

  lemma DivCeilLeast(a: nat, b: nat, n: nat)
    requires b > 0 && a <= b * n
    ensures DivCeil(a, b) <= n
  {
    DivCeilIs(a, b);
    var q := DivCeil(a, b);
    assert q > n ==> b * (q - 1) >= b * n;
  }

  lemma DivCeilMore(a: nat, b: nat, n: nat)
    requires b > 0 && b * n < a
    ensures DivCeil(a, b) > n
  {
    DivCeilIs(a, b);
    var q := DivCeil(a, b);
    assert q <= n ==> b * q <= b * n;
  }

  lemma Multiply(a: nat, b: nat, c: nat)
    requires a <= b
    ensures c * a <= c * b
  {
  }

  /** A chunk holds between 1 and 4096 elements.  As many chunks are wanted as four times the threads, or as 4096
      elements to a chunk need, but no more than there are elements; the size is the least with which so many
      chunks hold the buffer, which may make fewer of them, though always more than half. */
  lemma ChunkCount(len: nat, threads: nat)
    requires len > 0
    ensures var size, n := PickChunkSize(len, threads), Min(len, Max(4 * threads, DivCeil(len, 4096)));
            && 1 <= size <= 4096 && n * (size - 1) < len <= n * size
            && DivCeil(len, size) <= n < 2 * DivCeil(len, size)
  {
    hide DivCeil;
    var n := Wanted(len, threads);
    var size := PickChunkSize(len, threads);
    DivCeilIs(len, MAX_CHUNK);
    SizeBounded(len, threads);
    DivCeilIs(len, n);
    DivCeilIs(len, size);
    CountAgainst(len, n, size, DivCeil(len, size));
  }

  lemma CountAgainst(len: nat, n: nat, size: nat, k: nat)
    requires 0 < n <= len && size > 0 && k > 0
    requires n * (size - 1) < len <= n * size && size * (k - 1) < len <= size * k
    ensures k <= n < 2 * k
  {
    Expand(n, size);
    Expand(size, k);
    if k > n {
      Multiply(n, k - 1, size);
    }
    if size >= 2 {
      Multiply(2, size, n);
    }
    if 2 * k <= n {
      Twice(size, k, n);
    }
  }

  lemma Expand(a: nat, b: nat)
    ensures a * b == b * a && a * (b - 1) == a * b - a
  {
  }

  lemma Twice(c: nat, k: nat, n: nat)
    requires 2 * k <= n
    ensures 2 * (c * k) <= c * n
  {
    Multiply(2 * k, n, c);
    assert c * (2 * k) == 2 * (c * k);
  }

  lemma SizeBounded(len: nat, threads: nat)
    requires len > 0
    ensures 1 <= PickChunkSize(len, threads) <= MAX_CHUNK
  {
    var n := Wanted(len, threads);
    DivCeilIs(len, n);
    DivCeilIs(len, MAX_CHUNK);
    var m := DivCeil(len, MAX_CHUNK);
    assert n == len || m <= n;
    if n == len {
      DivCeilLeast(len, n, 1);
    } else {
      Multiply(m, n, MAX_CHUNK);
      DivCeilLeast(len, n, MAX_CHUNK);
    }
  }

  /** Short buffers go out one element per chunk; longer ones give every worker more than two chunks. */
  lemma EnoughChunks(len: nat, threads: nat)
    requires len > 0 && threads > 0
    ensures len <= threads * CHUNKS_PER_WORKER ==> PickChunkSize(len, threads) == 1
    ensures len >= threads * CHUNKS_PER_WORKER ==> DivCeil(len, PickChunkSize(len, threads)) > 2 * threads
  {
    ChunkCount(len, threads);
    var n := Wanted(len, threads);
    if len <= threads * CHUNKS_PER_WORKER {
      assert n == len;
      DivCeilLeast(len, n, 1);
    } else {
      assert n >= threads * CHUNKS_PER_WORKER;
    }
  }

  // ----- the chunks themselves -----

  datatype Chunk = Chunk(start: nat, len: nat)

  /** `slice::chunks`: full chunks from the front, whatever is left at the end. */
  function Split(start: nat, len: nat, size: nat): (r: seq<Chunk>)
    requires size > 0 && start <= len
    ensures r == [] <==> start == len
    decreases len - start
  {
    if start == len then []
    else var part := Min(len - start, size); [Chunk(start, part)] + Split(start + part, len, size)
  }

  function Slice<T>(xs: seq<T>, c: Chunk): seq<T>
    requires c.start + c.len <= |xs|
  {
    xs[c.start..c.start + c.len]
  }

  /** Chunk `k`, computed directly. */
  function Nth(len: nat, size: nat, k: nat): (c: Chunk)
    requires size > 0 && k < DivCeil(len, size)
    ensures c.start == k * size && c.start + c.len <= len && 0 < c.len <= size
    ensures c.start + c.len == Min((k + 1) * size, len)
  {
    NthStarts(len, size, k);
    Chunk(k * size, Min(len - k * size, size))
  }

  lemma NthStarts(len: nat, size: nat, k: nat)
    requires size > 0 && k < DivCeil(len, size)
    ensures k * size < len && (k + 1) * size == k * size + size
  {
    DivCeilIs(len, size);
    var q := DivCeil(len, size);
    Multiply(k, q - 1, size);
    assert k * size == size * k;
  }

  /** Splitting yields exactly the chunks at the multiples of the chunk size. */
  lemma {:induction false} SplitIsNth(len: nat, size: nat, j: nat)
    requires size > 0 && j <= DivCeil(len, size) && Min(j * size, len) <= len
    ensures var r := Split(Min(j * size, len), len, size);
            |r| == DivCeil(len, size) - j && forall k | j <= k < DivCeil(len, size) :: r[k - j] == Nth(len, size, k)
    decreases DivCeil(len, size) - j
  {
    DivCeilIs(len, size);
    var q := DivCeil(len, size);
    assert q * size == size * q;
    if j < q {
      NthStarts(len, size, j);
      SplitIsNth(len, size, j + 1);
      var r, rest := Split(j * size, len, size), Split(Min((j + 1) * size, len), len, size);
      assert r == [Nth(len, size, j)] + rest;
      forall k | j <= k < q ensures r[k - j] == Nth(len, size, k) {
        if k > j {
          assert r[k - j] == rest[k - (j + 1)];
        }
      }
    }
  }

  lemma ChunkAt(len: nat, size: nat)
    requires size > 0
    ensures |Split(0, len, size)| == DivCeil(len, size)
    ensures forall k | 0 <= k < DivCeil(len, size) :: Split(0, len, size)[k] == Nth(len, size, k)
  {
    SplitIsNth(len, size, 0);
  }

  /** The chunk an index is in. */
  function Owner(i: nat, size: nat): nat
    requires size > 0
  {
    i / size
  }

  predicate Holds(c: Chunk, i: nat) { c.start <= i < c.start + c.len }

  /** Every index of the buffer is in exactly one chunk. */
  lemma ExactlyOne(len: nat, size: nat, i: nat, k: nat)
    requires size > 0 && i < len && k < DivCeil(len, size)
    ensures Owner(i, size) < DivCeil(len, size)
    ensures Holds(Nth(len, size, k), i) <==> k == Owner(i, size)
  {
    var o := i / size;
    assert i == size * o + i % size;
    DivCeilMore(len, size, o);
    NthStarts(len, size, k);
    NthStarts(len, size, o);
    assert size * o == o * size;
    if k < o {
      Multiply(k + 1, o, size);
      assert size * (k + 1) == (k + 1) * size;
    } else if o < k {
      Multiply(o + 1, k, size);
      assert size * (o + 1) == o * size + size && size * k == k * size;
    }
  }

  lemma IsOwner(len: nat, size: nat, i: nat)
    requires size > 0 && i < len
    ensures Owner(i, size) < DivCeil(len, size) && Holds(Nth(len, size, Owner(i, size)), i)
  {
    assert i == size * (i / size) + i % size;
    DivCeilMore(len, size, i / size);
    ExactlyOne(len, size, i, Owner(i, size));
  }

  /** The chunks in order are the buffer. */
  lemma {:induction false} SlicesJoin<T>(xs: seq<T>, start: nat, size: nat)
    requires size > 0 && start <= |xs|
    ensures forall c <- Split(start, |xs|, size) :: c.start + c.len <= |xs|
    ensures Joined(xs, Split(start, |xs|, size)) == xs[start..]
    decreases |xs| - start
  {
    if start < |xs| {
      var part := Min(|xs| - start, size);
      SlicesJoin(xs, start + part, size);
      var rest := Split(start + part, |xs|, size);
      assert ([Chunk(start, part)] + rest)[1..] == rest;
      assert xs[start..] == xs[start..start + part] + xs[start + part..];
    }
  }

  function Joined<T>(xs: seq<T>, cs: seq<Chunk>): seq<T>
    requires forall c <- cs :: c.start + c.len <= |xs|
  {
    if cs == [] then [] else Slice(xs, cs[0]) + Joined(xs, cs[1..])
  }

  // ----- the drivers -----

  datatype Plan = Nothing | Whole | Spawn(chunks: seq<Chunk>)

  /** How a buffer is handed out: nothing to do, one call for fewer elements than threads, or chunks. */
  function PlanFor(len: nat, threads: nat): Plan {
    var t := Max(threads, 1);
    if len == 0 then Nothing
    else if len < t then Whole
    else Spawn(Split(0, len, PickChunkSize(len, t)))
  }

  /** The parts of the buffer a plan has worked on. */
  function Work(plan: Plan, len: nat): seq<Chunk> {
    match plan
    case Nothing => []
    case Whole => [Chunk(0, len)]
    case Spawn(chunks) => chunks
  }

  /** Every index is in exactly one of the chunks, and they are in order without gaps. */
  ghost predicate Covers(work: seq<Chunk>, len: nat) {
    && (forall i | 0 <= i < len :: InOne(work, i))
    && (forall c <- work :: c.start + c.len <= len)
    && forall xs: seq<int> | |xs| == len :: Joined(xs, work) == xs
  }

  ghost predicate InOne(work: seq<Chunk>, i: nat) { exists k: nat :: k < |work| && OnlyIn(work, i, k) }

  predicate OnlyIn(work: seq<Chunk>, i: nat, k: nat) {
    forall j | 0 <= j < |work| :: Holds(work[j], i) <==> j == k
  }

  lemma SplitCovers(len: nat, size: nat)
    requires size > 0
    ensures Covers(Split(0, len, size), len)
  {
    hide DivCeil, Nth, Split;
    var work := Split(0, len, size);
    ChunkAt(len, size);
    forall i | 0 <= i < len ensures InOne(work, i) {
      IsOwner(len, size, i);
      forall j | 0 <= j < |work| ensures Holds(work[j], i) <==> j == Owner(i, size) {
        ExactlyOne(len, size, i, j);
      }
      assert OnlyIn(work, i, Owner(i, size));
    }
    forall c <- work ensures c.start + c.len <= len {
      var j :| 0 <= j < |work| && work[j] == c;
    }
    forall xs: seq<int> | |xs| == len ensures Joined(xs, work) == xs {
      SlicesJoin(xs, 0, size);
      assert xs[0..] == xs;
    }
  }

  /** The size of the tasks of a plan. */
  function TaskSize(len: nat, threads: nat): (size: nat)
    ensures size > 0
  {
    var t := Max(threads, 1);
    if len == 0 then 1 else if len < t then len else SizeBounded(len, t); PickChunkSize(len, t)
  }

  /** Whatever the length and the number of threads, what is planned is all of the buffer, each element once. */
  lemma PlanCovers(len: nat, threads: nat)
    ensures Work(PlanFor(len, threads), len) == Split(0, len, TaskSize(len, threads))
    ensures Covers(Work(PlanFor(len, threads), len), len)
  {
    hide Covers;
    SplitCovers(len, TaskSize(len, threads));
    if 0 < len < Max(threads, 1) {
      assert Split(0, len, len) == [Chunk(0, len)] + Split(len, len, len);
    }
  }

  datatype Invoked = Done(plan: Plan) | NotRegistered

  /** `invoke_kernel_parallel`: what it runs, and on which parts of the buffer.  An empty buffer is fine
      even for a kernel that is not registered. */
  method InvokeKernelParallel(registered: bool, len: nat, threads: nat) returns (r: Invoked)
    ensures r == if len > 0 && !registered then NotRegistered else Done(PlanFor(len, threads))
    ensures r.Done? ==> Covers(Work(r.plan, len), len)
    ensures r.Done? && 0 < len < threads ==> |Work(r.plan, len)| == 1
  {
    hide Covers;
    PlanCovers(len, threads);
    if len == 0 {
      return Done(Nothing);
    }
    if !registered {
      return NotRegistered;
    }
    var t := Max(threads, 1);
    if len < t {
      return Done(Whole);
    }
    SizeBounded(len, t);
    var chunks := SpawnChunks(len, PickChunkSize(len, t));
    r := Done(Spawn(chunks));
  }

  /** The offset loop: spawns one task per chunk. */
  method SpawnChunks(len: nat, size: nat) returns (spawned: seq<Chunk>)
    requires size > 0
    ensures spawned == Split(0, len, size)
  {
    spawned := [];
    var start := 0;
    assert [] + Split(0, len, size) == Split(0, len, size);
    while start < len
      invariant start <= len
      invariant spawned + Split(start, len, size) == Split(0, len, size)
    {
      var part := Min(len - start, size);
      assert spawned + ([Chunk(start, part)] + Split(start + part, len, size)) ==
             spawned + [Chunk(start, part)] + Split(start + part, len, size);
      spawned := spawned + [Chunk(start, part)];
      start := start + part;
    }
    assert spawned + [] == spawned;
  }
}
