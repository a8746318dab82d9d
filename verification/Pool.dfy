/** The pool of worker threads behind `execute` (src/lib.rs): a bounded queue, one done-slot per task, calls
    that send all their chunks and then await them in order, and a shutdown that sends every worker one
    message and joins them.  A step machine in which any enabled step may come next. */
module Pool {
  import opened Wrappers
  import opened Machine
  import opened Elements
  import opened ChunkWork
  import C = Chunks

  const ERROR_PREFIX := "Python error in worker thread: "

  /** The calls made on the pool, each by a thread of its own, and the number of workers. */
  datatype Conf = Conf(reqs: seq<Req>, threads: nat)

  predicate ValidConf(p: Conf) { p.threads > 0 && forall c | 0 <= c < |p.reqs| :: Valid(p.reqs[c]) }

  /** The bound of the queue. */
  function Cap(p: Conf): nat { p.threads * C.CHUNKS_PER_WORKER * 2 }

  /** Chunk `k` of call `c`. */
  datatype Task = Task(c: nat, k: nat)

  datatype Msg = Work(task: Task) | Shutdown

  datatype Worker = Idle | Running(task: Task, pos: nat) | Stopped

  type Done = Result<(), string>

  datatype Phase =
    | Sending(sent: nat)
    | Waiting(awaited: nat, err: Option<string>)
    | Returned(res: Result<seq<Val>, string>)

  /** A call: how far it is, its output buffer, and the done-slots of the tasks it has sent. */
  datatype Call = Call(phase: Phase, out: seq<Val>, slots: seq<Option<Done>>)

  datatype Closing = Open | Telling(told: nat) | Joining(joined: nat) | Closed

  datatype State = State(queue: seq<Msg>, workers: seq<Worker>, calls: seq<Call>, closing: Closing)

  datatype Step =
    | Send(c: nat) | AllSent(c: nat) | Await(c: nat) | Finish(c: nat)
    | Receive(w: nat) | Run(w: nat)
    | Close | Tell | AllTold | Join | Leave

  // ----- the machine -----

  function Start(p: Conf, outs: seq<seq<Val>>): State
    requires |outs| == |p.reqs|
  {
    State([], seq(p.threads, _ => Idle), seq(|outs|, c requires 0 <= c < |outs| => Call(Sending(0), outs[c], [])), Open)
  }

  /** Lengths fit; tasks in flight are tasks that were sent. */
  predicate Shape(p: Conf, s: State) {
    && ValidConf(p) && |s.calls| == |p.reqs| && |s.workers| == p.threads && |s.queue| <= Cap(p)
    && (forall c | 0 <= c < |s.calls| :: CallShape(p.reqs[c], s.calls[c]))
    && (forall i | 0 <= i < |s.queue| && s.queue[i].Work? :: Sent(s, s.queue[i].task))
    && (forall w | 0 <= w < |s.workers| && s.workers[w].Running? :: Sent(s, s.workers[w].task))
  }

  predicate CallShape(r: Req, call: Call)
    requires Valid(r)
  {
    && |call.out| == |r.inp|
    && match call.phase
       case Sending(n) => n <= Count(r) && |call.slots| == n
       case Waiting(a, _) => a <= Count(r) && |call.slots| == Count(r)
       case Returned(_) => |call.slots| == Count(r)
  }

  predicate Sent(s: State, t: Task) { t.c < |s.calls| && t.k < |s.calls[t.c].slots| }

  predicate Enabled(p: Conf, s: State, step: Step)
    requires Shape(p, s)
  {
    match step
    case Send(c) => c < |s.calls| && s.calls[c].phase.Sending? && s.calls[c].phase.sent < Count(p.reqs[c]) && |s.queue| < Cap(p)
    case AllSent(c) => c < |s.calls| && s.calls[c].phase.Sending? && s.calls[c].phase.sent == Count(p.reqs[c])
    case Await(c) =>
      && c < |s.calls| && s.calls[c].phase.Waiting? && s.calls[c].phase.awaited < Count(p.reqs[c])
      && s.calls[c].slots[s.calls[c].phase.awaited].Some?
    case Finish(c) => c < |s.calls| && s.calls[c].phase.Waiting? && s.calls[c].phase.awaited == Count(p.reqs[c])
    case Receive(w) => w < |s.workers| && s.workers[w].Idle? && s.queue != []
    case Run(w) => w < |s.workers| && s.workers[w].Running?
    case Close => s.closing.Open? && forall c | 0 <= c < |s.calls| :: !s.calls[c].phase.Sending?
    case Tell => s.closing.Telling? && s.closing.told < p.threads && |s.queue| < Cap(p)
    case AllTold => s.closing.Telling? && s.closing.told >= p.threads
    case Join => s.closing.Joining? && s.closing.joined < p.threads && s.workers[s.closing.joined].Stopped?
    case Leave => s.closing.Joining? && s.closing.joined >= p.threads
  }

  function Apply(p: Conf, s: State, step: Step): State
    requires Shape(p, s) && Enabled(p, s, step)
  {
    match step
    case Send(c) => s.(queue := s.queue + [Work(Task(c, s.calls[c].phase.sent))], calls := s.calls[c := Sending1(s.calls[c])])
    case AllSent(c) => s.(calls := s.calls[c := s.calls[c].(phase := Waiting(0, None))])
    case Await(c) => s.(calls := s.calls[c := Awaited(s.calls[c])])
    case Finish(c) => s.(calls := s.calls[c := s.calls[c].(phase := Returned(Answer(s.calls[c])))])
    case Receive(w) => s.(queue := s.queue[1..], workers := s.workers[w := Taken(s.queue[0])])
    case Run(w) => RunTask(p, s, w)
    case Close => s.(closing := Telling(0))
    case Tell => s.(queue := s.queue + [Shutdown], closing := Telling(s.closing.told + 1))
    case AllTold => s.(closing := Joining(0))
    case Join => s.(closing := Joining(s.closing.joined + 1))
    case Leave => s.(closing := Closed)
  }

  function Sending1(call: Call): Call
    requires call.phase.Sending?
  {
    call.(phase := Sending(call.phase.sent + 1), slots := call.slots + [None])
  }

  /** Takes the result out of the next done-slot; keeps the first error met. */
  function Awaited(call: Call): Call
    requires call.phase.Waiting? && call.phase.awaited < |call.slots| && call.slots[call.phase.awaited].Some?
  {
    var a := call.phase.awaited;
    var done := call.slots[a].value;
    var err := if done.Err? && call.phase.err.None? then Some(done.error) else call.phase.err;
    call.(phase := Waiting(a + 1, err), slots := call.slots[a := None])
  }

  function Answer(call: Call): Result<seq<Val>, string>
    requires call.phase.Waiting?
  {
    if call.phase.err.Some? then Err(call.phase.err.value) else Ok(call.out)
  }

  function Taken(m: Msg): Worker {
    match m
    case Work(t) => Running(t, 0)
    case Shutdown => Stopped
  }

  /** One element of the worker's chunk, or the end of it: then the slot is filled. */
  function RunTask(p: Conf, s: State, w: nat): State
    requires Shape(p, s) && w < |s.workers| && s.workers[w].Running?
  {
    var t, pos := s.workers[w].task, s.workers[w].pos;
    var r := p.reqs[t.c];
    var chunk := ChunkOf(r, t.k);
    if pos >= chunk.len then Filled(s, w, t, Ok(()))
    else
      match r.f(r.inp[chunk.start + pos])
      case Ok(v) => s.(workers := s.workers[w := Running(t, pos + 1)],
                       calls := s.calls[t.c := s.calls[t.c].(out := s.calls[t.c].out[chunk.start + pos := v])])
      case Err(e) => Filled(s, w, t, Err(ERROR_PREFIX + e))
  }

  function Filled(s: State, w: nat, t: Task, d: Done): State
    requires w < |s.workers| && Sent(s, t)
  {
    s.(workers := s.workers[w := Idle],
       calls := s.calls[t.c := s.calls[t.c].(slots := s.calls[t.c].slots[t.k := Some(d)])])
  }

  // ----- what every step keeps -----

  /** Chunks whose result this call has already taken. */
  function TakenBy(r: Req, call: Call): nat
    requires Valid(r)
  {
    match call.phase
    case Sending(_) => 0
    case Waiting(a, _) => a
    case Returned(_) => Count(r)
  }

  function Prefixed(e: Option<string>): Option<string> {
    match e
    case Some(x) => Some(ERROR_PREFIX + x)
    case None => None
  }

  /** What the call is to return: the sequential map, or the error of the first element that fails. */
  function Expected(r: Req): Result<seq<Val>, string> {
    match MapAll(r.f, r.inp)
    case Ok(ys) => Ok(ys)
    case Err(e) => Err(ERROR_PREFIX + e)
  }

  /** A chunk that is done without error has all its results in the output. */
  predicate ChunkDone(r: Req, call: Call, k: nat)
    requires Valid(r) && k < Count(r)
  {
    ChunkError(r, k).None? ==> Written(r, call.out, k, ChunkOf(r, k).len)
  }

  predicate SlotOk(r: Req, call: Call, k: nat)
    requires Valid(r) && k < |call.slots| <= Count(r)
  {
    call.slots[k].Some? ==>
      && ChunkDone(r, call, k)
      && call.slots[k].value == (match ChunkError(r, k) case None => Ok(()) case Some(e) => Err(ERROR_PREFIX + e))
  }

  predicate CallInv(r: Req, call: Call)
    requires Valid(r)
  {
    && CallShape(r, call)
    && (forall k | 0 <= k < |call.slots| :: SlotOk(r, call, k))
    && (forall k | 0 <= k < TakenBy(r, call) :: call.slots[k].None?)
    && match call.phase
       case Sending(_) => true
       case Waiting(a, err) => err == Prefixed(FirstError(r, a)) && forall k | 0 <= k < a :: ChunkDone(r, call, k)
       case Returned(res) => res == Expected(r)
  }

  /** Sent, and its slot not yet filled: the task is queued or running. */
  predicate Outstanding(p: Conf, s: State, t: Task)
    requires ValidConf(p) && |s.calls| == |p.reqs|
  {
    Sent(s, t) && TakenBy(p.reqs[t.c], s.calls[t.c]) <= t.k && s.calls[t.c].slots[t.k].None?
  }

  predicate Queued(s: State, t: Task) { Work(t) in s.queue }

  predicate RunBy(s: State, w: nat, t: Task) { w < |s.workers| && s.workers[w].Running? && s.workers[w].task == t }

  predicate IsRunning(s: State, t: Task) { exists w | 0 <= w < |s.workers| :: RunBy(s, w, t) }

  /** No task is in two places. */
  predicate Exclusive(s: State) {
    && (forall i, j | 0 <= i < j < |s.queue| && s.queue[i].Work? :: s.queue[i] != s.queue[j])
    && (forall v, w | 0 <= v < w < |s.workers| && s.workers[v].Running? && s.workers[w].Running? ::
          s.workers[v].task != s.workers[w].task)
    && (forall w | 0 <= w < |s.workers| && s.workers[w].Running? :: !Queued(s, s.workers[w].task))
  }

  /** Every task in flight is outstanding. */
  predicate FlightInv(p: Conf, s: State)
    requires Shape(p, s)
  {
    && (forall i | 0 <= i < |s.queue| && s.queue[i].Work? :: Outstanding(p, s, s.queue[i].task))
    && (forall w | 0 <= w < |s.workers| && s.workers[w].Running? :: Outstanding(p, s, s.workers[w].task) && WorkerInv(p, s, w))
  }

  predicate WorkerInv(p: Conf, s: State, w: nat)
    requires Shape(p, s) && w < |s.workers| && s.workers[w].Running?
  {
    var t := s.workers[w].task;
    Written(p.reqs[t.c], s.calls[t.c].out, t.k, s.workers[w].pos)
  }

  /** Every outstanding task is in flight. */
  ghost predicate Covered(p: Conf, s: State)
    requires Shape(p, s)
  {
    forall t: Task :: Outstanding(p, s, t) ==> Queued(s, t) || IsRunning(s, t)
  }

  predicate CallsInv(p: Conf, s: State)
    requires Shape(p, s)
  {
    forall c | 0 <= c < |s.calls| :: CallInv(p.reqs[c], s.calls[c])
  }

  // Shutdown.

  function Stops(workers: seq<Worker>): nat {
    if workers == [] then 0 else (if workers[0].Stopped? then 1 else 0) + Stops(workers[1..])
  }

  function Notices(queue: seq<Msg>): nat {
    if queue == [] then 0 else (if queue[0].Shutdown? then 1 else 0) + Notices(queue[1..])
  }

  function Told(p: Conf, s: State): nat {
    match s.closing
    case Open => 0
    case Telling(n) => n
    case _ => p.threads
  }

  /** Each Shutdown sent is in the queue or has stopped one worker; nothing is queued behind one. */
  predicate ClosingInv(p: Conf, s: State)
    requires Shape(p, s)
  {
    && Told(p, s) == Stops(s.workers) + Notices(s.queue) <= p.threads
    && (!s.closing.Open? ==> forall c | 0 <= c < |s.calls| :: !s.calls[c].phase.Sending?)
    && (forall i, j | 0 <= i < j < |s.queue| && s.queue[i].Shutdown? :: s.queue[j].Shutdown?)
    && ((exists w | 0 <= w < |s.workers| :: s.workers[w].Stopped?) ==> forall i | 0 <= i < |s.queue| :: s.queue[i].Shutdown?)
    && (s.closing.Joining? ==> s.closing.joined <= p.threads && forall w | 0 <= w < s.closing.joined :: s.workers[w].Stopped?)
    && (s.closing.Closed? ==> forall w | 0 <= w < |s.workers| :: s.workers[w].Stopped?)
  }

  ghost predicate Inv(p: Conf, s: State) {
    && Shape(p, s) && CallsInv(p, s) && Exclusive(s) && FlightInv(p, s) && Covered(p, s) && ClosingInv(p, s)
  }

  // ----- calls -----

  lemma SendCall(r: Req, call: Call)
    requires Valid(r) && CallInv(r, call) && call.phase.Sending? && call.phase.sent < Count(r)
    ensures CallInv(r, Sending1(call))
  {
    hide ChunkError, Written;
    var next := Sending1(call);
    forall k | 0 <= k < |next.slots| ensures SlotOk(r, next, k) {
      if k < |call.slots| {
        assert SlotOk(r, call, k);
      }
    }
  }

  lemma WaitCall(r: Req, call: Call)
    requires Valid(r) && CallInv(r, call) && call.phase.Sending? && call.phase.sent == Count(r)
    ensures CallInv(r, call.(phase := Waiting(0, None)))
  {
    hide ChunkError, Written;
    var next := call.(phase := Waiting(0, None));
    forall k | 0 <= k < |next.slots| ensures SlotOk(r, next, k) {
      assert SlotOk(r, call, k);
    }
  }

  lemma AwaitCall(r: Req, call: Call)
    requires Valid(r) && CallInv(r, call) && call.phase.Waiting? && call.phase.awaited < Count(r)
    requires call.slots[call.phase.awaited].Some?
    ensures CallInv(r, Awaited(call))
  {
    hide ChunkError, Written;
    var next := Awaited(call);
    assert SlotOk(r, call, call.phase.awaited);
    forall k | 0 <= k < |next.slots| ensures SlotOk(r, next, k) {
      assert SlotOk(r, call, k);
    }
    forall k | 0 <= k < call.phase.awaited + 1 ensures ChunkDone(r, next, k) {
      assert ChunkDone(r, call, k);
    }
  }

  /** A call that has awaited all its chunks returns what sequential execution returns. */
  lemma FinishCall(r: Req, call: Call)
    requires Valid(r) && CallInv(r, call) && call.phase.Waiting? && call.phase.awaited == Count(r)
    ensures Answer(call) == Expected(r)
    ensures CallInv(r, call.(phase := Returned(Answer(call))))
  {
    hide ChunkError, Written, MapAll;
    CallFails(r);
    if call.phase.err.None? {
      FirstErrorIs(r, Count(r));
      forall k | 0 <= k < Count(r) ensures Written(r, call.out, k, ChunkOf(r, k).len) {
        assert ChunkDone(r, call, k);
      }
      AllWritten(r, call.out);
    }
    var next := call.(phase := Returned(Answer(call)));
    forall k | 0 <= k < |next.slots| ensures SlotOk(r, next, k) {
      assert SlotOk(r, call, k);
    }
  }

  /** Filling a slot with the chunk's result. */
  lemma FillCall(r: Req, call: Call, k: nat, d: Done)
    requires Valid(r) && CallInv(r, call) && TakenBy(r, call) <= k < |call.slots|
    requires ChunkDone(r, call, k)
    requires d == (match ChunkError(r, k) case None => Ok(()) case Some(e) => Err(ERROR_PREFIX + e))
    ensures CallInv(r, call.(slots := call.slots[k := Some(d)]))
  {
    hide ChunkError, Written;
    var next := call.(slots := call.slots[k := Some(d)]);
    forall j | 0 <= j < |next.slots| ensures SlotOk(r, next, j) {
      assert SlotOk(r, call, j);
    }
    forall j | 0 <= j < TakenBy(r, next) && next.phase.Waiting? ensures ChunkDone(r, next, j) {
      assert ChunkDone(r, call, j);
    }
  }

  /** Writing a result of an outstanding chunk leaves the other chunks alone. */
  lemma WriteCall(r: Req, call: Call, k: nat, i: nat, v: Val)
    requires Valid(r) && CallInv(r, call) && TakenBy(r, call) <= k < |call.slots| && call.slots[k].None?
    requires C.Holds(ChunkOf(r, k), i)
    ensures CallInv(r, call.(out := call.out[i := v]))
  {
    hide ChunkError, Written, C.Nth, C.DivCeil;
    var next := call.(out := call.out[i := v]);
    forall j | 0 <= j < |next.slots| ensures SlotOk(r, next, j) {
      assert SlotOk(r, call, j);
      if j != k && Written(r, call.out, j, ChunkOf(r, j).len) {
        WrittenApart(r, call.out, j, ChunkOf(r, j).len, k, i, v);
      }
    }
    forall j | 0 <= j < TakenBy(r, next) && next.phase.Waiting? ensures ChunkDone(r, next, j) {
      assert ChunkDone(r, call, j);
      if Written(r, call.out, j, ChunkOf(r, j).len) {
        WrittenApart(r, call.out, j, ChunkOf(r, j).len, k, i, v);
      }
    }
  }

  // ----- every step -----

  lemma StartInv(p: Conf, outs: seq<seq<Val>>)
    requires ValidConf(p) && |outs| == |p.reqs| && forall c | 0 <= c < |outs| :: |outs[c]| == |p.reqs[c].inp|
    ensures Inv(p, Start(p, outs))
  {
    NoStops(p.threads);
  }

  lemma {:induction false} NoStops(n: nat)
    ensures Stops(seq(n, _ => Idle)) == 0
  {
    if n > 0 {
      NoStops(n - 1);
      assert seq(n, _ => Idle)[1..] == seq(n - 1, _ => Idle);
    }
  }

  /** Replacing one call by one with the same output and the same outstanding tasks. */
  predicate SameTasks(r: Req, a: Call, b: Call)
    requires Valid(r)
  {
    && b.out == a.out && |b.slots| == |a.slots|
    && forall k | 0 <= k < |a.slots| :: (TakenBy(r, b) <= k && b.slots[k].None?) <==> (TakenBy(r, a) <= k && a.slots[k].None?)
  }

  lemma CallStepInv(p: Conf, s: State, c: nat, call: Call)
    requires Inv(p, s) && c < |s.calls| && CallInv(p.reqs[c], call) && SameTasks(p.reqs[c], s.calls[c], call)
    requires call.phase.Sending? ==> s.closing.Open?
    ensures Inv(p, s.(calls := s.calls[c := call]))
  {
    hide CallInv, Written, Stops, Notices, Count;
    var t := s.(calls := s.calls[c := call]);
    CallInvShape(p.reqs[c], call);
    assert Shape(p, t);
    forall x: Task ensures Outstanding(p, t, x) <==> Outstanding(p, s, x) {
    }
    forall w | 0 <= w < |t.workers| && t.workers[w].Running? ensures WorkerInv(p, t, w) {
      assert WorkerInv(p, s, w);
    }
    assert Exclusive(t);
    SameFlight(s, t);
  }

  lemma CallInvShape(r: Req, call: Call)
    requires Valid(r) && CallInv(r, call)
    ensures CallShape(r, call)
  {
  }

  lemma SameFlight(s: State, t: State)
    requires s.workers == t.workers
    ensures forall x: Task :: IsRunning(t, x) <==> IsRunning(s, x)
  {
    forall x: Task ensures IsRunning(t, x) <==> IsRunning(s, x) {
      if v :| 0 <= v < |s.workers| && RunBy(s, v, x) {
        assert RunBy(t, v, x);
      }
      if v :| 0 <= v < |t.workers| && RunBy(t, v, x) {
        assert RunBy(s, v, x);
      }
    }
  }

  lemma SendInv(p: Conf, s: State, c: nat)
    requires Inv(p, s) && Enabled(p, s, Send(c))
    ensures Inv(p, Apply(p, s, Send(c)))
  {
    hide CallInv, Written, Stops, Notices, Count;
    var t := Apply(p, s, Send(c));
    var n := s.calls[c].phase.sent;
    var sent := Task(c, n);
    SendCall(p.reqs[c], s.calls[c]);
    CallInvShape(p.reqs[c], t.calls[c]);
    assert Shape(p, t);
    forall x: Task ensures Outstanding(p, t, x) <==> Outstanding(p, s, x) || x == sent {
    }
    forall x: Task ensures Queued(t, x) <==> Queued(s, x) || x == sent {
    }
    SameFlight(s, t);
    assert !Outstanding(p, s, sent);
    forall w | 0 <= w < |t.workers| && t.workers[w].Running? ensures WorkerInv(p, t, w) {
      assert WorkerInv(p, s, w);
    }
    assert Exclusive(t);
    SendClosing(p, s, c);
    hide ClosingInv;
  }

  /** Tasks are only sent before shutdown begins. */
  lemma SendClosing(p: Conf, s: State, c: nat)
    requires Inv(p, s) && Enabled(p, s, Send(c)) && Shape(p, Apply(p, s, Send(c)))
    ensures ClosingInv(p, Apply(p, s, Send(c)))
  {
    hide CallsInv, FlightInv, Exclusive, Covered, Stops, Notices, Count;
    var t := Apply(p, s, Send(c));
    assert s.closing.Open?;
    NoticesAdd(s.queue, Work(Task(c, s.calls[c].phase.sent)));
    assert Stops(s.workers) == 0 && Notices(s.queue) == 0;
    NoneStopped(s.workers);
    NoNotices(s.queue);
  }

  lemma {:induction false} NoneStopped(workers: seq<Worker>)
    ensures Stops(workers) == 0 <==> forall w | 0 <= w < |workers| :: !workers[w].Stopped?
  {
    if workers != [] {
      NoneStopped(workers[1..]);
      assert workers == [workers[0]] + workers[1..];
    }
  }

  lemma {:induction false} NoNotices(queue: seq<Msg>)
    ensures Notices(queue) == 0 <==> forall i | 0 <= i < |queue| :: !queue[i].Shutdown?
  {
    if queue != [] {
      NoNotices(queue[1..]);
      assert queue == [queue[0]] + queue[1..];
    }
  }

  lemma {:induction false} NoticesAdd(queue: seq<Msg>, m: Msg)
    ensures Notices(queue + [m]) == Notices(queue) + if m.Shutdown? then 1 else 0
  {
    if queue == [] {
      assert queue + [m] == [m];
    } else {
      NoticesAdd(queue[1..], m);
      assert (queue + [m])[1..] == queue[1..] + [m];
    }
  }

  lemma {:induction false} StopsSet(workers: seq<Worker>, w: nat, x: Worker)
    requires w < |workers|
    ensures Stops(workers[w := x]) + (if workers[w].Stopped? then 1 else 0) == Stops(workers) + if x.Stopped? then 1 else 0
  {
    if w == 0 {
      assert workers[w := x][1..] == workers[1..];
    } else {
      StopsSet(workers[1..], w - 1, x);
      assert workers[w := x][1..] == workers[1..][w - 1 := x];
    }
  }

  lemma ReceiveInv(p: Conf, s: State, w: nat)
    requires Inv(p, s) && Enabled(p, s, Receive(w))
    ensures Inv(p, Apply(p, s, Receive(w)))
  {
    hide CallInv, Written, Stops, Notices, Count, MapAll;
    var t := Apply(p, s, Receive(w));
    var m := s.queue[0];
    StopsSet(s.workers, w, Taken(m));
    NoticesHead(s.queue);
    forall i | 0 <= i < |t.queue| ensures t.queue[i] == s.queue[i + 1] {
    }
    assert Shape(p, t);
    forall x: Task ensures Outstanding(p, t, x) <==> Outstanding(p, s, x) {
    }
    ReceiveFlight(p, s, w);
    if m.Work? {
      Begun(p, s, m.task);
    }
    forall v | 0 <= v < |t.workers| && t.workers[v].Running? ensures WorkerInv(p, t, v) && Outstanding(p, t, t.workers[v].task) {
      if v != w {
        assert WorkerInv(p, s, v);
      }
    }
  }

  lemma NoticesHead(queue: seq<Msg>)
    requires queue != []
    ensures Notices(queue) == Notices(queue[1..]) + if queue[0].Shutdown? then 1 else 0
  {
  }

  /** A task just received has written nothing yet. */
  lemma Begun(p: Conf, s: State, t: Task)
    requires Shape(p, s) && Sent(s, t)
    ensures Written(p.reqs[t.c], s.calls[t.c].out, t.k, 0)
  {
    assert CallShape(p.reqs[t.c], s.calls[t.c]);
  }

  lemma ReceiveFlight(p: Conf, s: State, w: nat)
    requires Inv(p, s) && Enabled(p, s, Receive(w))
    ensures var t := Apply(p, s, Receive(w));
            && Exclusive(t)
            && forall x: Task :: Queued(s, x) || IsRunning(s, x) ==> Queued(t, x) || IsRunning(t, x)
  {
    hide CallsInv, Written, Stops, Notices, Count, FlightInv, Covered, ClosingInv;
    var t := Apply(p, s, Receive(w));
    var m := s.queue[0];
    assert s.queue == [m] + t.queue;
    forall i | 0 <= i < |t.queue| ensures t.queue[i] == s.queue[i + 1] {
    }
    forall x: Task | IsRunning(s, x) ensures IsRunning(t, x) {
      var v :| 0 <= v < |s.workers| && RunBy(s, v, x);
      assert RunBy(t, v, x);
    }
    if m.Work? {
      assert RunBy(t, w, m.task);
      assert !Queued(t, m.task);
    }
  }

  // ----- a worker -----

  lemma RunInv(p: Conf, s: State, w: nat)
    requires Inv(p, s) && Enabled(p, s, Run(w))
    ensures Inv(p, Apply(p, s, Run(w)))
  {
    hide CallInv, Written, Stops, Notices, Exclusive, Covered, ClosingInv, ChunkError, MapAll, C.Nth, C.DivCeil;
    var t, pos := s.workers[w].task, s.workers[w].pos;
    var r := p.reqs[t.c];
    assert Outstanding(p, s, t) && WorkerInv(p, s, w) && CallInv(r, s.calls[t.c]);
    PosBounded(r, s.calls[t.c].out, t.k, pos);
    var chunk := ChunkOf(r, t.k);
    if pos == chunk.len {
      ChunkSucceeds(r, s.calls[t.c].out, t.k);
      FillInv(p, s, w, Ok(()));
    } else {
      match r.f(r.inp[chunk.start + pos])
      case Ok(v) => WriteInv(p, s, w, v);
      case Err(e) =>
        ChunkFails(r, s.calls[t.c].out, t.k, pos, e);
        FillInv(p, s, w, Err(ERROR_PREFIX + e));
    }
  }

  lemma PosBounded(r: Req, out: seq<Val>, k: nat, n: nat)
    requires Valid(r) && k < Count(r) && Written(r, out, k, n)
    ensures n <= ChunkOf(r, k).len
  {
  }

  /** A worker at work makes no difference to shutdown. */
  lemma ClosingWorker(p: Conf, s: State, t: State, w: nat, x: Worker)
    requires Shape(p, s) && Shape(p, t) && ClosingInv(p, s) && w < |s.workers| && !s.workers[w].Stopped? && !x.Stopped?
    requires t.queue == s.queue && t.closing == s.closing && t.workers == s.workers[w := x]
    requires forall c | 0 <= c < |s.calls| :: t.calls[c].phase == s.calls[c].phase
    ensures ClosingInv(p, t)
  {
    hide Stops, Notices, CallShape;
    StopsSet(s.workers, w, x);
  }

  lemma FillInv(p: Conf, s: State, w: nat, d: Done)
    requires Inv(p, s) && Enabled(p, s, Run(w))
    requires var t := s.workers[w].task;
             && ChunkDone(p.reqs[t.c], s.calls[t.c], t.k)
             && d == (match ChunkError(p.reqs[t.c], t.k) case None => Ok(()) case Some(e) => Err(ERROR_PREFIX + e))
    ensures Inv(p, Filled(s, w, s.workers[w].task, d))
  {
    hide CallInv, Written, Stops, Notices, Count, ChunkError, ChunkDone;
    var x := s.workers[w].task;
    var t := Filled(s, w, x, d);
    assert Outstanding(p, s, x) && CallInv(p.reqs[x.c], s.calls[x.c]);
    FillCall(p.reqs[x.c], s.calls[x.c], x.k, d);
    CallInvShape(p.reqs[x.c], t.calls[x.c]);
    assert Shape(p, t);
    ClosingWorker(p, s, t, w, Idle);
    hide ClosingInv;
    forall y: Task ensures Outstanding(p, t, y) <==> Outstanding(p, s, y) && y != x {
    }
    FillFlight(p, s, t, w);
    forall v | 0 <= v < |t.workers| && t.workers[v].Running? ensures WorkerInv(p, t, v) && Outstanding(p, t, t.workers[v].task) {
      assert WorkerInv(p, s, v);
    }
  }

  lemma FillFlight(p: Conf, s: State, t: State, w: nat)
    requires w < |s.workers| && s.workers[w].Running? && Exclusive(s)
    requires t.queue == s.queue && t.workers == s.workers[w := Idle]
    ensures Exclusive(t)
    ensures !Queued(t, s.workers[w].task) && !IsRunning(t, s.workers[w].task)
    ensures forall x: Task | x != s.workers[w].task :: (Queued(t, x) <==> Queued(s, x)) && (IsRunning(t, x) <==> IsRunning(s, x))
  {
    forall x: Task | x != s.workers[w].task ensures IsRunning(t, x) <==> IsRunning(s, x) {
      if v :| 0 <= v < |s.workers| && RunBy(s, v, x) {
        assert RunBy(t, v, x);
      }
      if v :| 0 <= v < |t.workers| && RunBy(t, v, x) {
        assert RunBy(s, v, x);
      }
    }
  }

  lemma WriteInv(p: Conf, s: State, w: nat, v: Val)
    requires Inv(p, s) && Enabled(p, s, Run(w))
    requires var t, pos := s.workers[w].task, s.workers[w].pos;
             pos < ChunkOf(p.reqs[t.c], t.k).len && p.reqs[t.c].f(p.reqs[t.c].inp[ChunkOf(p.reqs[t.c], t.k).start + pos]) == Ok(v)
    ensures Inv(p, Apply(p, s, Run(w)))
  {
    hide CallInv, Written, Stops, Notices, ChunkError, C.Nth, C.DivCeil;
    var x, pos := s.workers[w].task, s.workers[w].pos;
    var r := p.reqs[x.c];
    var i := ChunkOf(r, x.k).start + pos;
    var t := Apply(p, s, Run(w));
    assert Outstanding(p, s, x) && WorkerInv(p, s, w) && CallInv(r, s.calls[x.c]);
    WriteCall(r, s.calls[x.c], x.k, i, v);
    CallInvShape(r, t.calls[x.c]);
    assert Shape(p, t);
    ClosingWorker(p, s, t, w, Running(x, pos + 1));
    hide ClosingInv;
    forall y: Task ensures Outstanding(p, t, y) <==> Outstanding(p, s, y) {
    }
    WriteFlight(s, t, w);
    WrittenNext(r, s.calls[x.c].out, x.k, pos, v);
    forall u | 0 <= u < |t.workers| && t.workers[u].Running? ensures WorkerInv(p, t, u) && Outstanding(p, t, t.workers[u].task) {
      if u != w {
        assert WorkerInv(p, s, u);
        var y := s.workers[u].task;
        assert y != x;
        if y.c == x.c {
          WrittenApart(r, s.calls[x.c].out, y.k, s.workers[u].pos, x.k, i, v);
        }
      }
    }
  }

  lemma WriteFlight(s: State, t: State, w: nat)
    requires w < |s.workers| && s.workers[w].Running? && Exclusive(s)
    requires t.queue == s.queue && t.workers == s.workers[w := Running(s.workers[w].task, s.workers[w].pos + 1)]
    ensures Exclusive(t)
    ensures forall x: Task :: (Queued(t, x) <==> Queued(s, x)) && (IsRunning(t, x) <==> IsRunning(s, x))
  {
    forall x: Task ensures IsRunning(t, x) <==> IsRunning(s, x) {
      if v :| 0 <= v < |s.workers| && RunBy(s, v, x) {
        assert RunBy(t, v, x);
      }
      if v :| 0 <= v < |t.workers| && RunBy(t, v, x) {
        assert RunBy(s, v, x);
      }
    }
  }

  // ----- shutdown -----

  lemma ClosingStepInv(p: Conf, s: State, step: Step)
    requires Inv(p, s) && Enabled(p, s, step) && step in {Close, Tell, AllTold, Join, Leave}
    ensures Inv(p, Apply(p, s, step))
  {
    hide CallInv, Written, Stops, Notices, Count;
    var t := Apply(p, s, step);
    assert Shape(p, t);
    ClosingKept(p, s, step);
    hide ClosingInv;
    forall x: Task ensures Outstanding(p, t, x) <==> Outstanding(p, s, x) {
    }
    SameFlight(s, t);
    forall x: Task ensures Queued(t, x) <==> Queued(s, x) {
    }
    assert Exclusive(t);
    forall w | 0 <= w < |t.workers| && t.workers[w].Running? ensures WorkerInv(p, t, w) {
      assert WorkerInv(p, s, w);
    }
  }

  lemma ClosingKept(p: Conf, s: State, step: Step)
    requires Inv(p, s) && Enabled(p, s, step) && step in {Close, Tell, AllTold, Join, Leave} && Shape(p, Apply(p, s, step))
    ensures ClosingInv(p, Apply(p, s, step))
  {
    hide CallsInv, FlightInv, Exclusive, Covered, Stops, Notices, Count;
    if step.Tell? {
      NoticesAdd(s.queue, Shutdown);
    }
  }

  /** Every step keeps the invariant. */
  lemma StepInv(p: Conf, s: State, step: Step)
    requires Inv(p, s) && Enabled(p, s, step)
    ensures Inv(p, Apply(p, s, step))
  {
    assert Inv(p, s);
    match step {
      case Send(c) => SendInv(p, s, c);
      case AllSent(c) =>
        assert CallInv(p.reqs[c], s.calls[c]);
        WaitCall(p.reqs[c], s.calls[c]);
        CallStepInv(p, s, c, s.calls[c].(phase := Waiting(0, None)));
      case Await(c) =>
        assert CallInv(p.reqs[c], s.calls[c]);
        AwaitCall(p.reqs[c], s.calls[c]);
        CallStepInv(p, s, c, Awaited(s.calls[c]));
      case Finish(c) =>
        assert CallInv(p.reqs[c], s.calls[c]);
        FinishCall(p.reqs[c], s.calls[c]);
        CallStepInv(p, s, c, s.calls[c].(phase := Returned(Answer(s.calls[c]))));
      case Receive(w) => ReceiveInv(p, s, w);
      case Run(w) => RunInv(p, s, w);
      case _ => ClosingStepInv(p, s, step);
    }
  }

  // ----- waiting, as a loop -----

  /** The first failure in order, if any. */
  function FirstFailure(results: seq<Done>): Done {
    if results == [] then Ok(()) else if results[0].Err? then results[0] else FirstFailure(results[1..])
  }

  /** `wait_for_tasks` over the results the done-slots give up one by one: all are awaited, the first error kept. */
  method WaitForTasks(results: seq<Done>) returns (r: Done)
    ensures r == FirstFailure(results)
    ensures r.Ok? <==> forall i | 0 <= i < |results| :: results[i].Ok?
    ensures r.Err? ==> exists i: nat :: i < |results| && results[i] == r && forall j | 0 <= j < i :: results[j].Ok?
  {
    var firstError: Option<string> := None;
    for i := 0 to |results|
      invariant firstError.None? ==> FirstFailure(results) == FirstFailure(results[i..]) && forall j | 0 <= j < i :: results[j].Ok?
      invariant firstError.Some? ==> FirstFailure(results) == Err(firstError.value)
      invariant firstError.Some? ==>
                  exists k: nat :: k < i && results[k] == Err(firstError.value) && forall j | 0 <= j < k :: results[j].Ok?
    {
      assert results[i..][0] == results[i] && results[i..][1..] == results[i + 1..];
      if results[i].Err? && firstError.None? {
        firstError := Some(results[i].error);
      }
    }
    r := match firstError case Some(e) => Err(e) case None => Ok(());
  }

  /** Waiting on the results of a call's chunks gives the error of the first element that fails. */
  lemma {:induction false} WaitIsFirstError(r: Req, results: seq<Done>, n: nat)
    requires Valid(r) && n <= Count(r) && |results| == n
    requires forall k | 0 <= k < n :: results[k] == (match ChunkError(r, k) case None => Ok(()) case Some(e) => Err(ERROR_PREFIX + e))
    ensures FirstFailure(results) == (match FirstError(r, n) case None => Ok(()) case Some(e) => Err(ERROR_PREFIX + e))
  {
    hide ChunkError;
    if n > 0 {
      var init := results[..n - 1];
      assert forall k | 0 <= k < n - 1 :: init[k] == results[k];
      WaitIsFirstError(r, init, n - 1);
      assert results == init + [results[n - 1]];
      FailureLast(init, results[n - 1]);
    }
  }

  lemma {:induction false} FailureLast(results: seq<Done>, d: Done)
    ensures FirstFailure(results + [d]) == if FirstFailure(results).Err? then FirstFailure(results) else FirstFailure([d])
  {
    if results == [] {
      assert results + [d] == [d];
    } else {
      FailureLast(results[1..], d);
      assert (results + [d])[1..] == results[1..] + [d];
    }
  }
}
