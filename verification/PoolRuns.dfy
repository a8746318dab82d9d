/** What holds of every run of the worker pool, whatever the schedule. */
module PoolRuns {
  import opened Wrappers
  import opened Machine
  import opened Elements
  import opened ChunkWork
  import opened Pool
  import C = Chunks

  /** A schedule is any sequence of steps, each enabled when it is taken. */
  ghost predicate Reaches(p: Conf, s: State, schedule: seq<Step>, end: State)
    decreases |schedule|
  {
    if schedule == [] then end == s
    else Shape(p, s) && Enabled(p, s, schedule[0]) && Reaches(p, Apply(p, s, schedule[0]), schedule[1..], end)
  }

  lemma {:induction false} RunInv(p: Conf, s: State, schedule: seq<Step>, end: State)
    requires Inv(p, s) && Reaches(p, s, schedule, end)
    ensures Inv(p, end)
    decreases |schedule|
  {
    hide Inv, Enabled, Apply;
    if schedule != [] {
      StepInv(p, s, schedule[0]);
      RunInv(p, Apply(p, s, schedule[0]), schedule[1..], end);
    }
  }

  /** A state of the pool that some schedule leads to. */
  ghost predicate Reachable(p: Conf, s: State) {
    ValidConf(p) && exists outs, schedule :: IsRun(p, outs, schedule, s)
  }

  ghost predicate IsRun(p: Conf, outs: seq<seq<Val>>, schedule: seq<Step>, s: State) {
    && |outs| == |p.reqs| && (forall c | 0 <= c < |outs| :: |outs[c]| == |p.reqs[c].inp|)
    && Reaches(p, Start(p, outs), schedule, s)
  }

  lemma ReachableInv(p: Conf, s: State)
    requires Reachable(p, s)
    ensures Inv(p, s)
  {
    hide Inv, Reaches;
    var outs, schedule :| IsRun(p, outs, schedule, s);
    StartInv(p, outs);
    RunInv(p, Start(p, outs), schedule, s);
  }

  // ----- answers -----

  /** A call returns the sequential map in input order, or the error of the first element that fails:
      never anything that depends on the schedule or on other calls. */
  lemma EveryCallIsSequential(p: Conf, s: State, c: nat)
    requires Reachable(p, s) && c < |s.calls| == |p.reqs| && s.calls[c].phase.Returned?
    ensures var r := p.reqs[c];
            match s.calls[c].phase.res
            case Ok(ys) => |ys| == |r.inp| && forall i | 0 <= i < |ys| :: r.f(r.inp[i]) == Ok(ys[i])
            case Err(m) => exists i: nat :: i < |r.inp| && AllBefore(r.f, r.inp, i) && FailsWith(r, i, m)
  {
    ReachableInv(p, s);
    hide Reachable, MapAll, ChunkError, Written, FirstError;
    var r := p.reqs[c];
    assert CallInv(r, s.calls[c]);
    match s.calls[c].phase.res
    case Ok(ys) => MapAllOk(r.f, r.inp, ys);
    case Err(m) =>
      var e := MapAll(r.f, r.inp).error;
      MapAllErr(r.f, r.inp, e);
      var i: nat :| i < |r.inp| && AllBefore(r.f, r.inp, i) && r.f(r.inp[i]) == Err(e);
      assert FailsWith(r, i, m);
  }

  predicate FailsWith(r: Req, i: nat, m: string)
    requires i < |r.inp|
  {
    r.f(r.inp[i]).Err? && m == ERROR_PREFIX + r.f(r.inp[i]).error
  }

  // ----- where tasks are -----

  predicate IsDone(p: Conf, s: State, t: Task)
    requires ValidConf(p) && |s.calls| == |p.reqs|
  {
    Sent(s, t) && !Outstanding(p, s, t)
  }

  /** Every task sent is queued, or running, or done: exactly one of these, and queued or running only once. */
  lemma EachTaskInOnePlace(p: Conf, s: State, t: Task)
    requires Reachable(p, s)
    ensures ValidConf(p) && |s.calls| == |p.reqs|
    ensures Sent(s, t) <==> Queued(s, t) || IsRunning(s, t) || IsDone(p, s, t)
    ensures !(Queued(s, t) && IsRunning(s, t)) && !(Queued(s, t) && IsDone(p, s, t)) && !(IsRunning(s, t) && IsDone(p, s, t))
    ensures forall i, j | 0 <= i < j < |s.queue| && s.queue[i] == Work(t) :: s.queue[j] != Work(t)
    ensures forall v, w | RunBy(s, v, t) && RunBy(s, w, t) :: v == w
  {
    ReachableInv(p, s);
    hide Reachable, CallsInv, ClosingInv, Written;
    if Queued(s, t) {
      var i :| 0 <= i < |s.queue| && s.queue[i] == Work(t);
    }
  }

  /** Two tasks in flight never share an element of an output buffer. */
  lemma SlicesApart(p: Conf, s: State, a: Task, b: Task, i: nat)
    requires Reachable(p, s) && Sent(s, a) && Sent(s, b) && a != b && a.c == b.c
    ensures a.c < |p.reqs| && Valid(p.reqs[a.c]) && a.k < Count(p.reqs[a.c]) && b.k < Count(p.reqs[a.c])
    ensures !(C.Holds(ChunkOf(p.reqs[a.c], a.k), i) && C.Holds(ChunkOf(p.reqs[a.c], b.k), i))
  {
    ReachableInv(p, s);
    hide Reachable, CallsInv, ClosingInv, Written, FlightInv, Exclusive, Covered, C.DivCeil, C.Nth;
    var r := p.reqs[a.c];
    assert CallShape(r, s.calls[a.c]);
    if i < |r.inp| {
      C.ExactlyOne(|r.inp|, r.size, i, a.k);
      C.ExactlyOne(|r.inp|, r.size, i, b.k);
    }
  }

  /** Once a call has awaited its last task, also if one of them failed, nothing queued or running refers to
      its buffers any more. */
  lemma NothingLeftBehind(p: Conf, s: State, c: nat, t: Task)
    requires Reachable(p, s) && c < |s.calls| == |p.reqs| && Valid(p.reqs[c]) && t.c == c
    requires s.calls[c].phase.Returned? || (s.calls[c].phase.Waiting? && s.calls[c].phase.awaited == Count(p.reqs[c]))
    ensures !Queued(s, t) && !IsRunning(s, t)
  {
    EachTaskInOnePlace(p, s, t);
    ReachableInv(p, s);
    hide Reachable, CallsInv, ClosingInv, Written, FlightInv, Exclusive, Covered, Count;
    assert CallShape(p.reqs[c], s.calls[c]);
  }

  // ----- progress -----

  /** Every call has returned, and shutdown has not begun or is complete. */
  predicate Settled(s: State) {
    (forall c | 0 <= c < |s.calls| :: s.calls[c].phase.Returned?) && (s.closing.Open? || s.closing.Closed?)
  }

  /** The pool never deadlocks: until everything has settled there is a step to take. */
  lemma NeverStuck(p: Conf, s: State)
    requires Reachable(p, s) && !Settled(s)
    ensures Shape(p, s) && exists step :: step != Close && Enabled(p, s, step)
  {
    ReachableInv(p, s);
    hide Reachable, CallsInv, Written, Exclusive, Stops, Notices, Enabled, Outstanding, FlightInv, Shape;
    ShapeSizes(p, s);
    if w :| 0 <= w < |s.workers| && s.workers[w].Running? {
      CanRun(p, s, w);
    } else if s.queue != [] && exists w :: 0 <= w < |s.workers| && s.workers[w].Idle? {
      var w :| 0 <= w < |s.workers| && s.workers[w].Idle?;
      CanReceive(p, s, w);
    } else {
      if s.queue != [] {
        AllStopped(p, s);
      }
      assert s.queue == [];
      QueueEmpty(p, s);
    }
  }

  lemma ShapeSizes(p: Conf, s: State)
    requires Shape(p, s)
    ensures p.threads > 0 && |s.workers| == p.threads && |s.calls| == |p.reqs| && Cap(p) > 0
  {
  }

  lemma CanRun(p: Conf, s: State, w: nat)
    requires Shape(p, s) && w < |s.workers| && s.workers[w].Running?
    ensures Enabled(p, s, Run(w))
  {
  }

  lemma CanReceive(p: Conf, s: State, w: nat)
    requires Shape(p, s) && w < |s.workers| && s.workers[w].Idle? && s.queue != []
    ensures Enabled(p, s, Receive(w))
  {
  }

  lemma {:induction false} StopsAll(workers: seq<Worker>)
    ensures Stops(workers) <= |workers|
    ensures Stops(workers) == |workers| <==> forall w | 0 <= w < |workers| :: workers[w].Stopped?
  {
    if workers != [] {
      StopsAll(workers[1..]);
      assert workers == [workers[0]] + workers[1..];
    }
  }

  lemma {:induction false} OnlyNotices(queue: seq<Msg>)
    ensures Notices(queue) == |queue| <==> forall i | 0 <= i < |queue| :: queue[i].Shutdown?
    ensures Notices(queue) <= |queue|
  {
    if queue != [] {
      OnlyNotices(queue[1..]);
      assert queue == [queue[0]] + queue[1..];
    }
  }

  /** Workers that have all stopped have emptied the queue. */
  lemma AllStopped(p: Conf, s: State)
    requires Inv(p, s) && forall w | 0 <= w < |s.workers| :: s.workers[w].Stopped?
    ensures s.queue == []
  {
    hide CallsInv, Exclusive, FlightInv, Covered, Stops, Notices;
    StopsAll(s.workers);
    assert s.workers[0].Stopped?;
    OnlyNotices(s.queue);
  }

  /** With nothing queued and nothing running, a call or the shutdown can go on. */
  lemma QueueEmpty(p: Conf, s: State)
    requires Inv(p, s) && !Settled(s) && s.queue == [] && forall w | 0 <= w < |s.workers| :: !s.workers[w].Running?
    ensures exists step :: step != Close && Enabled(p, s, step)
  {
    hide CallsInv, Exclusive, FlightInv, Covered, Stops, Notices, ClosingInv, Count;
    if c :| 0 <= c < |s.calls| && !s.calls[c].phase.Returned? {
      CallGoesOn(p, s, c);
    } else {
      ShutdownGoesOn(p, s);
    }
  }

  lemma CallGoesOn(p: Conf, s: State, c: nat)
    requires Inv(p, s) && s.queue == [] && (forall w | 0 <= w < |s.workers| :: !s.workers[w].Running?)
    requires c < |s.calls| && !s.calls[c].phase.Returned?
    ensures Enabled(p, s, Send(c)) || Enabled(p, s, AllSent(c)) || Enabled(p, s, Await(c)) || Enabled(p, s, Finish(c))
  {
    hide CallsInv, Exclusive, FlightInv, Stops, Notices, ClosingInv, Count;
    assert CallShape(p.reqs[c], s.calls[c]);
    match s.calls[c].phase
    case Sending(n) =>
    case Waiting(a, _) =>
      var t := Task(c, a);
      assert !Queued(s, t) && !IsRunning(s, t);
      assert !Outstanding(p, s, t);
  }

  lemma ShutdownGoesOn(p: Conf, s: State)
    requires Inv(p, s) && s.queue == [] && (forall w | 0 <= w < |s.workers| :: !s.workers[w].Running?)
    requires s.closing.Telling? || s.closing.Joining?
    ensures Enabled(p, s, Tell) || Enabled(p, s, AllTold) || Enabled(p, s, Join) || Enabled(p, s, Leave)
  {
    hide CallsInv, Exclusive, FlightInv, Covered, Stops, CallShape;
    StopsAll(s.workers);
  }

  // ----- shutdown -----

  /** When shutdown is complete every worker has stopped, each on a message of its own, and whatever was
      sent before has been worked off. */
  lemma ShutdownComplete(p: Conf, s: State)
    requires Reachable(p, s) && s.closing.Closed?
    ensures forall w | 0 <= w < |s.workers| :: s.workers[w].Stopped?
    ensures s.queue == [] && Stops(s.workers) == p.threads == |s.workers|
    ensures ValidConf(p) && |s.calls| == |p.reqs| && forall t: Task | Sent(s, t) :: IsDone(p, s, t)
  {
    ReachableInv(p, s);
    hide Reachable, CallsInv, Exclusive, FlightInv, Stops, Notices;
    AllStopped(p, s);
    StopsAll(s.workers);
    forall t: Task | Sent(s, t) ensures IsDone(p, s, t) {
      assert !Queued(s, t) && !IsRunning(s, t);
    }
  }

  // ----- termination -----

  function TaskLen(p: Conf, t: Task): nat {
    if t.c < |p.reqs| && Valid(p.reqs[t.c]) && t.k < Count(p.reqs[t.c]) then ChunkOf(p.reqs[t.c], t.k).len else 0
  }

  function QueueLeft(p: Conf, queue: seq<Msg>): nat {
    if queue == [] then 0 else MsgLeft(p, queue[0]) + QueueLeft(p, queue[1..])
  }

  function MsgLeft(p: Conf, m: Msg): nat {
    match m
    case Work(t) => TaskLen(p, t) + 3
    case Shutdown => 1
  }

  function WorkersLeft(p: Conf, workers: seq<Worker>): nat {
    if workers == [] then 0 else WorkerLeft(p, workers[0]) + WorkersLeft(p, workers[1..])
  }

  function WorkerLeft(p: Conf, w: Worker): nat {
    match w
    case Running(t, pos) => (if pos <= TaskLen(p, t) then TaskLen(p, t) - pos else 0) + 2
    case _ => 0
  }

  function CallsLeft(p: Conf, calls: seq<Call>, c: nat): nat
    requires ValidConf(p) && |calls| == |p.reqs| && c <= |calls|
    decreases |calls| - c
  {
    if c == |calls| then 0 else CallLeft(p, calls[c], c) + CallsLeft(p, calls, c + 1)
  }

  /** Tasks to send, then to await. */
  function CallLeft(p: Conf, call: Call, c: nat): nat
    requires ValidConf(p) && c < |p.reqs|
  {
    var n := Count(p.reqs[c]);
    match call.phase
    case Sending(k) => Unsent(p, c, if k <= n then k else n) + n + 2
    case Waiting(a, _) => (if a <= n then n - a else 0) + 1
    case Returned(_) => 0
  }

  function Unsent(p: Conf, c: nat, k: nat): nat
    requires ValidConf(p) && c < |p.reqs| && k <= Count(p.reqs[c])
    decreases Count(p.reqs[c]) - k
  {
    if k == Count(p.reqs[c]) then 0 else TaskLen(p, Task(c, k)) + 4 + Unsent(p, c, k + 1)
  }

  function ClosingLeft(p: Conf, closing: Closing): nat {
    match closing
    case Open => 3 * p.threads + 3
    case Telling(n) => (if n <= p.threads then 2 * (p.threads - n) else 0) + p.threads + 2
    case Joining(j) => (if j <= p.threads then p.threads - j else 0) + 1
    case Closed => 0
  }

  /** How many steps can still come. */
  function Left(p: Conf, s: State): nat
    requires ValidConf(p) && |s.calls| == |p.reqs|
  {
    QueueLeft(p, s.queue) + WorkersLeft(p, s.workers) + CallsLeft(p, s.calls, 0) + ClosingLeft(p, s.closing)
  }

  lemma {:induction false} QueueLeftAdd(p: Conf, queue: seq<Msg>, m: Msg)
    ensures QueueLeft(p, queue + [m]) == QueueLeft(p, queue) + MsgLeft(p, m)
  {
    hide MsgLeft;
    if queue == [] {
      assert queue + [m] == [m];
    } else {
      QueueLeftAdd(p, queue[1..], m);
      assert (queue + [m])[1..] == queue[1..] + [m];
    }
  }

  lemma {:induction false} WorkersLeftSet(p: Conf, workers: seq<Worker>, w: nat, x: Worker)
    requires w < |workers|
    ensures WorkersLeft(p, workers[w := x]) + WorkerLeft(p, workers[w]) == WorkersLeft(p, workers) + WorkerLeft(p, x)
  {
    hide WorkerLeft;
    if w == 0 {
      assert workers[w := x][1..] == workers[1..];
    } else {
      WorkersLeftSet(p, workers[1..], w - 1, x);
      assert workers[w := x][1..] == workers[1..][w - 1 := x];
    }
  }

  lemma {:induction false} CallsLeftSet(p: Conf, calls: seq<Call>, at: nat, x: Call, c: nat)
    requires ValidConf(p) && |calls| == |p.reqs| && c <= |calls| && at < |calls|
    ensures if c <= at then CallsLeft(p, calls[at := x], c) + CallLeft(p, calls[at], at) == CallsLeft(p, calls, c) + CallLeft(p, x, at)
            else CallsLeft(p, calls[at := x], c) == CallsLeft(p, calls, c)
    decreases |calls| - c
  {
    hide CallLeft;
    if c < |calls| {
      CallsLeftSet(p, calls, at, x, c + 1);
    }
  }

  /** Every step uses up some of what is left. */
  lemma StepUses(p: Conf, s: State, step: Step)
    requires Inv(p, s) && Enabled(p, s, step)
    ensures |Apply(p, s, step).calls| == |p.reqs|
    ensures Left(p, Apply(p, s, step)) < Left(p, s)
  {
    hide CallsInv, Exclusive, Covered, QueueLeft, WorkersLeft, CallsLeft, Stops, Notices, Written, Unsent, Count, C.Nth, C.DivCeil;
    match step {
      case Send(c) =>
        QueueLeftAdd(p, s.queue, Work(Task(c, s.calls[c].phase.sent)));
        CallsLeftSet(p, s.calls, c, Sending1(s.calls[c]), 0);
        UnsentNext(p, c, s.calls[c].phase.sent);
      case AllSent(c) => CallsLeftSet(p, s.calls, c, s.calls[c].(phase := Waiting(0, None)), 0);
      case Await(c) => CallsLeftSet(p, s.calls, c, Awaited(s.calls[c]), 0);
      case Finish(c) => CallsLeftSet(p, s.calls, c, s.calls[c].(phase := Returned(Answer(s.calls[c]))), 0);
      case Receive(w) =>
        QueueLeftHead(p, s.queue);
        WorkersLeftSet(p, s.workers, w, Taken(s.queue[0]));
      case Run(w) => RunUses(p, s, w);
      case Tell => QueueLeftAdd(p, s.queue, Shutdown);
      case _ =>
    }
  }

  lemma QueueLeftHead(p: Conf, queue: seq<Msg>)
    requires queue != []
    ensures QueueLeft(p, queue) == MsgLeft(p, queue[0]) + QueueLeft(p, queue[1..])
  {
  }

  lemma UnsentNext(p: Conf, c: nat, k: nat)
    requires ValidConf(p) && c < |p.reqs| && k < Count(p.reqs[c])
    ensures Unsent(p, c, k) == TaskLen(p, Task(c, k)) + 4 + Unsent(p, c, k + 1)
  {
  }

  lemma RunUses(p: Conf, s: State, w: nat)
    requires Inv(p, s) && Enabled(p, s, Run(w))
    ensures var t := Apply(p, s, Run(w)); |t.calls| == |p.reqs| && Left(p, t) < Left(p, s)
  {
    hide CallsInv, Exclusive, Covered, ClosingInv, QueueLeft, WorkersLeft, CallsLeft, Written, Unsent, C.Nth, C.DivCeil;
    var x, pos := s.workers[w].task, s.workers[w].pos;
    var t := Apply(p, s, Run(w));
    assert Outstanding(p, s, x) && WorkerInv(p, s, w);
    assert CallShape(p.reqs[x.c], s.calls[x.c]);
    PosBounded(p.reqs[x.c], s.calls[x.c].out, x.k, pos);
    WorkersLeftSet(p, s.workers, w, t.workers[w]);
    CallsLeftSet(p, s.calls, x.c, t.calls[x.c], 0);
  }

  lemma {:induction false} RunUsesAll(p: Conf, s: State, schedule: seq<Step>, end: State)
    requires Inv(p, s) && Reaches(p, s, schedule, end)
    ensures |end.calls| == |p.reqs| && |schedule| + Left(p, end) <= Left(p, s)
    decreases |schedule|
  {
    hide Enabled, Apply, Left, CallsInv, Exclusive, Covered, ClosingInv, FlightInv;
    if schedule != [] {
      StepUses(p, s, schedule[0]);
      StepInv(p, s, schedule[0]);
      RunUsesAll(p, Apply(p, s, schedule[0]), schedule[1..], end);
    }
  }

  /** So every schedule is finite, and one that cannot go on has settled: all calls have returned, and all
      joins too if shutdown was begun. */
  lemma SchedulesSettle(p: Conf, outs: seq<seq<Val>>, schedule: seq<Step>, end: State)
    requires ValidConf(p) && IsRun(p, outs, schedule, end)
    ensures |schedule| <= Left(p, Start(p, outs))
    ensures Shape(p, end) && ((forall step | step != Close :: !Enabled(p, end, step)) ==> Settled(end))
  {
    hide Inv, Left, Reaches, Settled, Enabled;
    StartInv(p, outs);
    RunUsesAll(p, Start(p, outs), schedule, end);
    assert Reachable(p, end);
    ReachableInv(p, end);
    InvShape(p, end);
    if !Settled(end) {
      NeverStuck(p, end);
    }
  }

  lemma InvShape(p: Conf, s: State)
    requires Inv(p, s)
    ensures Shape(p, s)
  {
  }
}
