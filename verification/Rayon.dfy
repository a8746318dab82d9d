/** Chunk-parallel drivers on a shared-memory task pool (`run_chunks`, `apply_in_parallel`): one task per chunk,
    tasks run element by element in any interleaving, the scope ends when all have ended.  A step machine: every
    schedule gives the sequential output, or an error exactly when the sequential run has one; which of several
    errors it is depends on the schedule. */
module Rayon {
  import opened Wrappers
  import opened Machine
  import opened Elements
  import opened ChunkWork
  import C = Chunks

  datatype Job = Running(pos: nat) | Ended

  /** Tasks spawned so far, the output they share, and the first error any of them has reported. */
  datatype State = State(jobs: seq<Job>, out: seq<Val>, firstErr: Option<string>)

  datatype Step = Spawn | Work(k: nat)

  const ERROR_PREFIX := "Python error in rayon worker: "

  function Start(r: Req, out: seq<Val>): State { State([], out, None) }

  predicate Enabled(r: Req, s: State, step: Step)
    requires Valid(r)
  {
    match step
    case Spawn => |s.jobs| < Count(r)
    case Work(k) => k < |s.jobs| && s.jobs[k].Running?
  }

  /** One element of one task, or its end.  Only the first error reported is kept. */
  function Apply(r: Req, s: State, step: Step): State
    requires Valid(r) && |s.jobs| <= Count(r) && |s.out| == |r.inp| && Enabled(r, s, step)
  {
    match step
    case Spawn => s.(jobs := s.jobs + [Running(0)])
    case Work(k) =>
      var c := ChunkOf(r, k);
      var pos := s.jobs[k].pos;
      if pos >= c.len then s.(jobs := s.jobs[k := Ended])
      else
        match r.f(r.inp[c.start + pos])
        case Ok(v) => s.(jobs := s.jobs[k := Running(pos + 1)], out := s.out[c.start + pos := v])
        case Err(e) => s.(jobs := s.jobs[k := Ended], firstErr := if s.firstErr.None? then Some(ERROR_PREFIX + e) else s.firstErr)
  }

  /** The scope returns once everything is spawned and has ended. */
  predicate Joined(r: Req, s: State)
    requires Valid(r)
  {
    |s.jobs| == Count(r) && forall k | 0 <= k < |s.jobs| :: s.jobs[k].Ended?
  }

  /** What a task has done so far. */
  predicate JobInv(r: Req, s: State, k: nat)
    requires Valid(r) && k < |s.jobs| <= Count(r)
  {
    match s.jobs[k]
    case Running(pos) => Written(r, s.out, k, pos)
    case Ended => Written(r, s.out, k, ChunkOf(r, k).len) || (ChunkError(r, k).Some? && s.firstErr.Some?)
  }

  /** The error kept is that of some chunk. */
  ghost predicate ErrorInv(r: Req, s: State)
    requires Valid(r)
  {
    s.firstErr.Some? ==> exists k :: 0 <= k < Count(r) && IsErrorOf(r, s.firstErr.value, k)
  }

  predicate IsErrorOf(r: Req, e: string, k: nat)
    requires Valid(r) && k < Count(r)
  {
    ChunkError(r, k).Some? && e == ERROR_PREFIX + ChunkError(r, k).value
  }

  ghost predicate Inv(r: Req, s: State) {
    && Valid(r) && |s.jobs| <= Count(r) && |s.out| == |r.inp|
    && (forall k | 0 <= k < |s.jobs| :: JobInv(r, s, k))
    && ErrorInv(r, s)
  }

  lemma StartInv(r: Req, out: seq<Val>)
    requires Valid(r) && |out| == |r.inp|
    ensures Inv(r, Start(r, out))
  {
  }

  lemma StepInv(r: Req, s: State, step: Step)
    requires Inv(r, s) && Enabled(r, s, step)
    ensures Inv(r, Apply(r, s, step))
  {
    hide C.Nth, C.DivCeil, Written, ChunkError, MapAll;
    var t := Apply(r, s, step);
    match step
    case Spawn =>
      forall k | 0 <= k < |t.jobs| ensures JobInv(r, t, k) {
        if k < |s.jobs| {
          assert JobInv(r, s, k);
        } else {
          NothingWritten(r, s.out, k);
        }
      }
    case Work(k) => WorkInv(r, s, k);
  }

  lemma NothingWritten(r: Req, out: seq<Val>, k: nat)
    requires Valid(r) && k < Count(r) && |out| == |r.inp|
    ensures Written(r, out, k, 0)
  {
  }

  lemma WrittenBounds(r: Req, out: seq<Val>, k: nat, n: nat)
    requires Valid(r) && k < Count(r) && Written(r, out, k, n)
    ensures n <= ChunkOf(r, k).len
  {
  }

  lemma WorkInv(r: Req, s: State, k: nat)
    requires Inv(r, s) && Enabled(r, s, Work(k))
    ensures Inv(r, Apply(r, s, Work(k)))
  {
    hide C.Nth, C.DivCeil, Written, ChunkError, MapAll;
    var c, pos := ChunkOf(r, k), s.jobs[k].pos;
    var t := Apply(r, s, Work(k));
    assert JobInv(r, s, k);
    WrittenBounds(r, s.out, k, pos);
    if pos < c.len {
      match r.f(r.inp[c.start + pos])
      case Ok(v) => WrittenNext(r, s.out, k, pos, v);
      case Err(e) =>
        ChunkFails(r, s.out, k, pos, e);
        if s.firstErr.None? {
          assert IsErrorOf(r, t.firstErr.value, k);
        }
    }
    forall j | 0 <= j < |t.jobs| ensures JobInv(r, t, j) {
      assert JobInv(r, s, j);
      if j != k && pos < c.len {
        Untouched(r, s, t, k, j);
      }
    }
  }

  lemma Untouched(r: Req, s: State, t: State, k: nat, j: nat)
    requires Inv(r, s) && Enabled(r, s, Work(k)) && t == Apply(r, s, Work(k)) && s.jobs[k].pos < ChunkOf(r, k).len
    requires j < |s.jobs| && j != k && JobInv(r, s, j)
    ensures JobInv(r, t, j)
  {
    hide C.Nth, C.DivCeil, Written, ChunkError, MapAll;
    var c, pos := ChunkOf(r, k), s.jobs[k].pos;
    match r.f(r.inp[c.start + pos])
    case Ok(v) =>
      match s.jobs[j] {
        case Running(n) => WrittenApart(r, s.out, j, n, k, c.start + pos, v);
        case Ended =>
          if Written(r, s.out, j, ChunkOf(r, j).len) {
            WrittenApart(r, s.out, j, ChunkOf(r, j).len, k, c.start + pos, v);
          }
      }
    case Err(e) =>
  }

  // ----- whole runs -----

  /** A schedule is any sequence of steps, each enabled when it is taken. */
  ghost predicate Reaches(r: Req, s: State, schedule: seq<Step>, end: State)
    requires Valid(r)
    decreases |schedule|
  {
    if schedule == [] then end == s
    else
      && |s.jobs| <= Count(r) && |s.out| == |r.inp| && Enabled(r, s, schedule[0])
      && Reaches(r, Apply(r, s, schedule[0]), schedule[1..], end)
  }

  lemma {:induction false} RunInv(r: Req, s: State, schedule: seq<Step>, end: State)
    requires Inv(r, s) && Reaches(r, s, schedule, end)
    ensures Inv(r, end)
    decreases |schedule|
  {
    hide Inv, Enabled, Apply;
    if schedule != [] {
      RunOne(r, s, schedule, end);
      StepInv(r, s, schedule[0]);
      RunInv(r, Apply(r, s, schedule[0]), schedule[1..], end);
    }
  }

  /** Whatever the schedule, once the scope is left: without an error the output is the sequential map; with
      one, some element fails, and the error is the first of some chunk.  An error is reported exactly when
      the sequential run has one. */
  lemma EveryScheduleIsSequential(r: Req, out: seq<Val>, schedule: seq<Step>, end: State)
    requires Valid(r) && |out| == |r.inp| && Reaches(r, Start(r, out), schedule, end) && Joined(r, end)
    ensures end.firstErr.None? ==> MapAll(r.f, r.inp) == Ok(end.out)
    ensures end.firstErr.Some? ==> MapAll(r.f, r.inp).Err? && exists k :: 0 <= k < Count(r) && IsErrorOf(r, end.firstErr.value, k)
  {
    hide C.Nth, C.DivCeil, MapAll, Written, Enabled, ChunkError;
    StartInv(r, out);
    RunInv(r, Start(r, out), schedule, end);
    if end.firstErr.None? {
      forall k | 0 <= k < Count(r) ensures Written(r, end.out, k, ChunkOf(r, k).len) {
        assert JobInv(r, end, k);
      }
      AllWritten(r, end.out);
    } else {
      var k :| 0 <= k < Count(r) && IsErrorOf(r, end.firstErr.value, k);
      CallFails(r);
      FirstErrorIs(r, Count(r));
    }
  }

  // ----- termination -----

  /** Work left in the tasks from `k` on: spawn it, do its elements, end it. */
  function Left(r: Req, s: State, k: nat): nat
    requires Valid(r) && k <= Count(r)
    decreases Count(r) - k
  {
    if k == Count(r) then 0 else JobLeft(r, s, k) + Left(r, s, k + 1)
  }

  function JobLeft(r: Req, s: State, k: nat): nat
    requires Valid(r) && k < Count(r)
  {
    if k >= |s.jobs| then ChunkOf(r, k).len + 2
    else
      match s.jobs[k]
      case Running(pos) => if pos <= ChunkOf(r, k).len then ChunkOf(r, k).len - pos + 1 else 1
      case Ended => 0
  }

  lemma {:induction false} LeftDrops(r: Req, s: State, t: State, k: nat, at: nat)
    requires Valid(r) && k <= Count(r) && at < Count(r)
    requires forall j | 0 <= j < Count(r) && j != at :: JobLeft(r, t, j) == JobLeft(r, s, j)
    requires JobLeft(r, t, at) < JobLeft(r, s, at)
    ensures if k <= at then Left(r, t, k) < Left(r, s, k) else Left(r, t, k) == Left(r, s, k)
    decreases Count(r) - k
  {
    hide JobLeft;
    if k < Count(r) {
      LeftDrops(r, s, t, k + 1, at);
    }
  }

  /** Every step brings the scope closer to its end, and until then there is a step to take. */
  lemma StepsEnd(r: Req, s: State, step: Step)
    requires Inv(r, s)
    ensures Enabled(r, s, step) ==> Left(r, Apply(r, s, step), 0) < Left(r, s, 0)
    ensures Joined(r, s) || exists next :: Enabled(r, s, next)
  {
    if Enabled(r, s, step) {
      var t := Apply(r, s, step);
      var at := match step case Spawn => |s.jobs| case Work(k) => k;
      if step.Work? {
        assert JobInv(r, s, at);
        WrittenBounds(r, s.out, at, s.jobs[at].pos);
      }
      LeftDrops(r, s, t, 0, at);
    }
    if !Joined(r, s) {
      if |s.jobs| < Count(r) {
        assert Enabled(r, s, Spawn);
      } else {
        var k :| 0 <= k < |s.jobs| && !s.jobs[k].Ended?;
        assert Enabled(r, s, Work(k));
      }
    }
  }

  /** So no schedule is longer than the work there is. */
  lemma {:induction false} SchedulesAreShort(r: Req, s: State, schedule: seq<Step>, end: State)
    requires Inv(r, s) && Reaches(r, s, schedule, end)
    ensures |schedule| + Left(r, end, 0) <= Left(r, s, 0)
    decreases |schedule|
  {
    hide Left, Inv, Enabled, Apply;
    if schedule != [] {
      RunOne(r, s, schedule, end);
      StepsEnd(r, s, schedule[0]);
      StepInv(r, s, schedule[0]);
      SchedulesAreShort(r, Apply(r, s, schedule[0]), schedule[1..], end);
    }
  }

  lemma RunOne(r: Req, s: State, schedule: seq<Step>, end: State)
    requires Inv(r, s) && Reaches(r, s, schedule, end) && schedule != []
    ensures Enabled(r, s, schedule[0]) && Valid(r) && |s.jobs| <= Count(r) && |s.out| == |r.inp|
    ensures Reaches(r, Apply(r, s, schedule[0]), schedule[1..], end)
  {
  }

  // ----- which error -----

  /** What the sequential run would report. */
  function Sequential(r: Req): Option<string> {
    match MapAll(r.f, r.inp)
    case Ok(_) => None
    case Err(e) => Some(ERROR_PREFIX + e)
  }

  /** A scope entered with output `out` may be left with the error `e`. */
  ghost predicate MayReport(r: Req, out: seq<Val>, e: Option<string>)
    requires Valid(r)
  {
    exists schedule, end :: Ends(r, out, schedule, end) && end.firstErr == e
  }

  ghost predicate Ends(r: Req, out: seq<Val>, schedule: seq<Step>, end: State)
    requires Valid(r)
  {
    Reaches(r, Start(r, out), schedule, end) && Joined(r, end)
  }

  /** The errors a scope may be left with are those of its failing chunks, each of them. */
  lemma ReportedErrors(r: Req, out: seq<Val>, e: string)
    requires Valid(r) && |out| == |r.inp|
    ensures MayReport(r, out, Some(e)) <==> exists k :: 0 <= k < Count(r) && IsErrorOf(r, e, k)
  {
    hide C.Nth, C.DivCeil, MapAll, Enabled, Reaches, Joined, ChunkError;
    if MayReport(r, out, Some(e)) {
      var schedule, end :| Ends(r, out, schedule, end) && end.firstErr == Some(e);
      EveryScheduleIsSequential(r, out, schedule, end);
    }
    if k :| 0 <= k < Count(r) && IsErrorOf(r, e, k) {
      var schedule, end := FailingFirst(r, out, k);
      assert IsErrorOf(r, e, k) && end.firstErr == Some(e);
    }
  }

  /** Every schedule reports what the sequential run would, exactly if all failing chunks fail alike. */
  lemma ReportsSequential(r: Req, out: seq<Val>)
    requires Valid(r) && |out| == |r.inp|
    ensures (forall e | MayReport(r, out, e) :: e == Sequential(r)) <==>
            forall k | 0 <= k < Count(r) && ChunkError(r, k).Some? :: ChunkError(r, k) == FirstError(r, Count(r))
  {
    hide C.Nth, C.DivCeil, MapAll, Enabled, Reaches, Joined, ChunkError, FirstError;
    CallFails(r);
    FirstErrorIs(r, Count(r));
    if forall k | 0 <= k < Count(r) && ChunkError(r, k).Some? :: ChunkError(r, k) == FirstError(r, Count(r)) {
      forall e | MayReport(r, out, e) ensures e == Sequential(r) {
        var schedule, end :| Ends(r, out, schedule, end) && end.firstErr == e;
        EveryScheduleIsSequential(r, out, schedule, end);
      }
    }
    if forall e | MayReport(r, out, e) :: e == Sequential(r) {
      forall k | 0 <= k < Count(r) && ChunkError(r, k).Some? ensures ChunkError(r, k) == FirstError(r, Count(r)) {
        var schedule, end := FailingFirst(r, out, k);
        assert MayReport(r, out, end.firstErr);
        var a, b := ChunkError(r, k).value, FirstError(r, Count(r)).value;
        assert a == (ERROR_PREFIX + a)[|ERROR_PREFIX|..] && b == (ERROR_PREFIX + b)[|ERROR_PREFIX|..];
      }
    }
  }

  /** A schedule on which chunk `k` is the first to fail: spawn all, work on `k` until it fails, then do the rest. */
  lemma FailingFirst(r: Req, out: seq<Val>, k: nat) returns (schedule: seq<Step>, end: State)
    requires Valid(r) && |out| == |r.inp| && k < Count(r) && ChunkError(r, k).Some?
    ensures Ends(r, out, schedule, end) && end.firstErr == Some(ERROR_PREFIX + ChunkError(r, k).value)
  {
    hide C.Nth, C.DivCeil, MapAll, Enabled, Reaches, Joined, ChunkError, Inv;
    StartInv(r, out);
    var a, s1 := SpawnAll(r, Start(r, out));
    var b, s2 := WorkToError(r, s1, k);
    var c, s3 := WorkToEnd(r, s2);
    ReachesJoin(r, Start(r, out), a, s1, b, s2);
    ReachesJoin(r, Start(r, out), a + b, s2, c, s3);
    schedule, end := a + b + c, s3;
  }

  lemma {:induction false} SpawnAll(r: Req, s: State) returns (schedule: seq<Step>, end: State)
    requires Inv(r, s) && s.firstErr.None? && forall k | 0 <= k < |s.jobs| :: s.jobs[k] == Running(0)
    ensures Inv(r, end) && Reaches(r, s, schedule, end) && |end.jobs| == Count(r) && end.firstErr.None?
    ensures forall k | 0 <= k < Count(r) :: end.jobs[k] == Running(0)
    decreases Count(r) - |s.jobs|
  {
    hide C.Nth, C.DivCeil, JobInv, ErrorInv;
    if |s.jobs| == Count(r) {
      schedule, end := [], s;
    } else {
      StepInv(r, s, Spawn);
      var rest;
      rest, end := SpawnAll(r, Apply(r, s, Spawn));
      schedule := [Spawn] + rest;
    }
  }

  lemma {:induction false} WorkToError(r: Req, s: State, k: nat) returns (schedule: seq<Step>, end: State)
    requires Inv(r, s) && s.firstErr.None? && k < |s.jobs| && s.jobs[k].Running? && ChunkError(r, k).Some?
    ensures Inv(r, end) && Reaches(r, s, schedule, end) && end.firstErr == Some(ERROR_PREFIX + ChunkError(r, k).value)
    decreases ChunkOf(r, k).len - s.jobs[k].pos
  {
    hide C.Nth, C.DivCeil, ErrorInv, Written, ChunkError, MapAll;
    var c, pos := ChunkOf(r, k), s.jobs[k].pos;
    assert JobInv(r, s, k);
    WrittenBounds(r, s.out, k, pos);
    StepInv(r, s, Work(k));
    var t := Apply(r, s, Work(k));
    if pos == c.len {
      ChunkSucceeds(r, s.out, k);
      assert false;
    } else {
      match r.f(r.inp[c.start + pos])
      case Ok(_) =>
        var rest;
        rest, end := WorkToError(r, t, k);
        schedule := [Work(k)] + rest;
      case Err(e) =>
        ChunkFails(r, s.out, k, pos, e);
        schedule, end := [Work(k)], t;
        assert Reaches(r, t, [], t);
    }
  }

  /** Any run can be finished, and keeps the error it has. */
  lemma {:induction false} WorkToEnd(r: Req, s: State) returns (schedule: seq<Step>, end: State)
    requires Inv(r, s)
    ensures Inv(r, end) && Reaches(r, s, schedule, end) && Joined(r, end)
    ensures s.firstErr.Some? ==> end.firstErr == s.firstErr
    decreases Left(r, s, 0)
  {
    hide C.Nth, C.DivCeil, JobInv, ErrorInv, Left, Joined, Enabled;
    StepsEnd(r, s, Spawn);
    if Joined(r, s) {
      schedule, end := [], s;
    } else {
      var step :| Enabled(r, s, step);
      StepsEnd(r, s, step);
      StepInv(r, s, step);
      var rest;
      rest, end := WorkToEnd(r, Apply(r, s, step));
      schedule := [step] + rest;
    }
  }

  lemma {:induction false} ReachesJoin(r: Req, s: State, a: seq<Step>, mid: State, b: seq<Step>, end: State)
    requires Valid(r) && Reaches(r, s, a, mid) && Reaches(r, mid, b, end)
    ensures Reaches(r, s, a + b, end)
    decreases |a|
  {
    hide Enabled, Apply;
    if a == [] {
      assert a + b == b;
    } else {
      assert (a + b)[0] == a[0] && (a + b)[1..] == a[1..] + b;
      assert Enabled(r, s, a[0]) && |s.jobs| <= Count(r) && |s.out| == |r.inp|;
      ReachesJoin(r, Apply(r, s, a[0]), a[1..], mid, b, end);
    }
  }

  /** Two elements that fail differently, one to a chunk: which error is seen depends on the schedule. */
  lemma SchedulesDisagree(out: seq<Val>)
    requires |out| == 2
    ensures var r := Req(x => if x == IntV(0) then Err("a") else Err("b"), [IntV(0), IntV(1)], 1);
            && MapAll(r.f, r.inp) == Err("a")
            && MayReport(r, out, Some("Python error in rayon worker: a")) && MayReport(r, out, Some("Python error in rayon worker: b"))
  {
    var r := Req(x => if x == IntV(0) then Err("a") else Err("b"), [IntV(0), IntV(1)], 1);
    assert ChunkOf(r, 0) == C.Chunk(0, 1) && ChunkOf(r, 1) == C.Chunk(1, 1);
    assert C.Slice(r.inp, ChunkOf(r, 0)) == [IntV(0)] && C.Slice(r.inp, ChunkOf(r, 1)) == [IntV(1)];
    assert ChunkError(r, 0) == Some("a") && ChunkError(r, 1) == Some("b");
    assert IsErrorOf(r, ERROR_PREFIX + "a", 0) && IsErrorOf(r, ERROR_PREFIX + "b", 1);
    assert ERROR_PREFIX + "a" == "Python error in rayon worker: a" && ERROR_PREFIX + "b" == "Python error in rayon worker: b";
    ReportedErrors(r, out, ERROR_PREFIX + "a");
    ReportedErrors(r, out, ERROR_PREFIX + "b");
  }
}
