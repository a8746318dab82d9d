/** How a worker finds the function of a task (src/lib.rs): the function of the previous task if the call is
    the same, a cache by name, and otherwise an import, after making sure the caller's paths are on
    `sys.path`.  Path work and imports may fail at any point and leave what was done so far.  Calls are told apart by
    the address of their context; when that is enough is said exactly. */
module WorkerCache {
  import opened Wrappers

  type Func = nat

  type Key = (string, string)

  /** A call's context: where it lives in memory, what to call, and the caller's `sys.path`. */
  datatype Ctx = Ctx(ptr: nat, key: Key, paths: seq<string>)

  /** What the interpreter would answer while a task is set up: whether `sys` can be had, for which entries
      looking or appending fails, and what importing the module and reading the name gives. */
  datatype Answer = Answer(sysFails: bool, lookFails: set<string>, appendFails: set<string>, fetched: Result<Func, string>)

  /** The worker's caches, and its interpreter's `sys.path`. */
  datatype Cache = Cache(
    funcs: map<Key, Func>, pathSet: set<string>,
    lastCtx: Option<nat>, lastFunc: Option<Func>, lastPathId: nat,
    sysPath: seq<string>)

  /** The path id of a worker that has seen no paths: `u64::MAX`. */
  const NO_PATHS: nat := 0xFFFF_FFFF_FFFF_FFFF

  function Empty(sysPath: seq<string>): Cache { Cache(map[], {}, None, None, NO_PATHS, sysPath) }

  /** Puts the missing paths on `sys.path`; false if the interpreter fails on the way. */
  function AddPaths(c: Cache, ps: seq<string>, a: Answer): (Cache, bool)
    decreases |ps|
  {
    if ps == [] then (c, true)
    else
      var p := ps[0];
      if p in c.pathSet then AddPaths(c, ps[1..], a)
      else if p in a.lookFails then (c, false)
      else if p in c.sysPath then AddPaths(c.(pathSet := c.pathSet + {p}), ps[1..], a)
      else if p in a.appendFails then (c, false)
      else AddPaths(c.(pathSet := c.pathSet + {p}, sysPath := c.sysPath + [p]), ps[1..], a)
  }

  function Patched(hash: seq<string> -> nat, c: Cache, x: Ctx, a: Answer): (Cache, bool) {
    if hash(x.paths) == c.lastPathId then (c, true)
    else if a.sysFails then (c, false)
    else
      var (d, ok) := AddPaths(c, x.paths, a);
      (if ok then d.(lastPathId := hash(x.paths)) else d, ok)
  }

  predicate SameCall(c: Cache, x: Ctx) { c.lastCtx == Some(x.ptr) && c.lastFunc.Some? }

  const FAILED := "path or import error"

  function Resolve(hash: seq<string> -> nat, c: Cache, x: Ctx, a: Answer): (Cache, Result<Func, string>) {
    if SameCall(c, x) then (c, Ok(c.lastFunc.value))
    else if x.key in c.funcs then (c.(lastCtx := Some(x.ptr), lastFunc := Some(c.funcs[x.key])), Ok(c.funcs[x.key]))
    else
      var (d, ok) := Patched(hash, c, x, a);
      if !ok then (d, Err(FAILED))
      else if a.fetched.Err? then (d, Err(a.fetched.error))
      else
        var f := a.fetched.value;
        (d.(funcs := d.funcs[x.key := f], lastCtx := Some(x.ptr), lastFunc := Some(f)), Ok(f))
  }

  // ----- a worker's life -----

  datatype Job = Job(x: Ctx, a: Answer)

  /** The caches when task `i` arrives. */
  function Before(hash: seq<string> -> nat, sysPath: seq<string>, jobs: seq<Job>, i: nat): Cache
    requires i <= |jobs|
  {
    if i == 0 then Empty(sysPath)
    else Resolve(hash, Before(hash, sysPath, jobs, i - 1), jobs[i - 1].x, jobs[i - 1].a).0
  }

  function Served(hash: seq<string> -> nat, sysPath: seq<string>, jobs: seq<Job>, i: nat): Result<Func, string>
    requires i < |jobs|
  {
    Resolve(hash, Before(hash, sysPath, jobs, i), jobs[i].x, jobs[i].a).1
  }

  /** Path ids tell path lists apart, and from no list at all. */
  ghost predicate IdsApart(hash: seq<string> -> nat, jobs: seq<Job>) {
    && (forall i, j | 0 <= i < |jobs| && 0 <= j < |jobs| && hash(jobs[i].x.paths) == hash(jobs[j].x.paths) ::
          jobs[i].x.paths == jobs[j].x.paths)
    && (forall i | 0 <= i < |jobs| :: hash(jobs[i].x.paths) != NO_PATHS)
  }

  /** Where an address is used again for another name, the earlier name is called once more in between. */
  ghost predicate AddressesApart(xs: seq<Ctx>) {
    forall l, i | 0 <= l < i < |xs| && xs[l].ptr == xs[i].ptr && xs[l].key != xs[i].key ::
      exists m :: l < m < i && xs[m].key == xs[l].key
  }

  function Contexts(jobs: seq<Job>): seq<Ctx> { seq(|jobs|, i requires 0 <= i < |jobs| => jobs[i].x) }

  predicate OnPath(c: Cache, ps: seq<string>) { forall p <- ps :: p in c.sysPath }

  // ----- what the caches hold -----

  /** The last call was that of an earlier task, whose name no task has had since. */
  ghost predicate CallInv(jobs: seq<Job>, i: nat, c: Cache)
    requires i <= |jobs|
  {
    c.lastFunc.Some? ==> exists j :: 0 <= j < i && LastCallIs(jobs, i, c, j)
  }

  predicate LastCallIs(jobs: seq<Job>, i: nat, c: Cache, j: nat)
    requires j < i <= |jobs|
  {
    && c.lastFunc.Some? && c.lastCtx == Some(jobs[j].x.ptr)
    && jobs[j].x.key in c.funcs && c.funcs[jobs[j].x.key] == c.lastFunc.value
    && forall m | j < m < i :: jobs[m].x.key != jobs[j].x.key
  }

  /** The last paths were those of an earlier task; cached paths are on `sys.path`. */
  ghost predicate PathInv(hash: seq<string> -> nat, jobs: seq<Job>, i: nat, c: Cache)
    requires i <= |jobs|
  {
    && (c.lastPathId != NO_PATHS ==> exists j :: 0 <= j < i && LastPathsAre(hash, jobs, c, j))
    && (forall p <- c.pathSet :: p in c.sysPath)
  }

  predicate LastPathsAre(hash: seq<string> -> nat, jobs: seq<Job>, c: Cache, j: nat)
    requires j < |jobs|
  {
    c.lastPathId == hash(jobs[j].x.paths) && OnPath(c, jobs[j].x.paths)
  }

  lemma {:induction false} PathsAdded(c: Cache, ps: seq<string>, a: Answer)
    requires forall p <- c.pathSet :: p in c.sysPath
    ensures var (d, ok) := AddPaths(c, ps, a);
            && c.sysPath <= d.sysPath && (forall p <- d.pathSet :: p in d.sysPath) && (ok ==> OnPath(d, ps))
    decreases |ps|
  {
    if ps != [] {
      var p := ps[0];
      if p in c.pathSet {
        PathsAdded(c, ps[1..], a);
      } else if p in c.sysPath {
        PathsAdded(c.(pathSet := c.pathSet + {p}), ps[1..], a);
      } else {
        PathsAdded(c.(pathSet := c.pathSet + {p}, sysPath := c.sysPath + [p]), ps[1..], a);
      }
      var (d, ok) := AddPaths(c, ps, a);
      if ok {
        forall q <- ps ensures q in d.sysPath {
          assert q == p || q in ps[1..];
        }
      }
    }
  }

  /** Path work touches no function. */
  lemma PatchedKeeps(hash: seq<string> -> nat, c: Cache, x: Ctx, a: Answer)
    ensures var d := Patched(hash, c, x, a).0; d.funcs == c.funcs && d.lastCtx == c.lastCtx && d.lastFunc == c.lastFunc
  {
    AddKeeps(c, x.paths, a);
  }

  lemma {:induction false} AddKeeps(c: Cache, ps: seq<string>, a: Answer)
    ensures var d := AddPaths(c, ps, a).0; d == c.(pathSet := d.pathSet, sysPath := d.sysPath)
    decreases |ps|
  {
    if ps != [] {
      var p := ps[0];
      AddKeeps(c, ps[1..], a);
      AddKeeps(c.(pathSet := c.pathSet + {p}), ps[1..], a);
      AddKeeps(c.(pathSet := c.pathSet + {p}, sysPath := c.sysPath + [p]), ps[1..], a);
    }
  }

  /** What is added to `sys.path` is listed by the caller, was not there, and is added once. */
  lemma {:induction false} PathsAddedOnce(c: Cache, ps: seq<string>, a: Answer)
    ensures var d := AddPaths(c, ps, a).0;
            && c.sysPath <= d.sysPath
            && forall i | |c.sysPath| <= i < |d.sysPath| :: d.sysPath[i] in ps && d.sysPath[i] !in d.sysPath[..i]
    decreases |ps|
  {
    if ps != [] {
      var p := ps[0];
      PathsAddedOnce(c, ps[1..], a);
      PathsAddedOnce(c.(pathSet := c.pathSet + {p}), ps[1..], a);
      PathsAddedOnce(c.(pathSet := c.pathSet + {p}, sysPath := c.sysPath + [p]), ps[1..], a);
      var d := AddPaths(c, ps, a).0;
      forall i | |c.sysPath| <= i < |d.sysPath| ensures d.sysPath[i] in ps && d.sysPath[i] !in d.sysPath[..i] {
        assert i == |c.sysPath| && d.sysPath[i] !in ps[1..] ==> d.sysPath[..i] == c.sysPath;
        assert d.sysPath[i] in ps[1..] ==> d.sysPath[i] in ps;
        if i == |c.sysPath| && p !in c.pathSet && p !in c.sysPath {
          assert d.sysPath[..i] == c.sysPath;
        }
      }
    }
  }

  /** Looking for `p`, and appending it if it is not there, would work. */
  predicate Reachable(c: Cache, p: string, a: Answer) {
    p in c.pathSet || (p !in a.lookFails && (p in c.sysPath || p !in a.appendFails))
  }

  /** The scan succeeds if and only if no path it has to look at fails. */
  lemma {:induction false} ScanSucceeds(c: Cache, ps: seq<string>, a: Answer)
    ensures AddPaths(c, ps, a).1 <==> forall p <- ps :: Reachable(c, p, a)
    decreases |ps|
  {
    if ps != [] {
      var p := ps[0];
      var seen := c.(pathSet := c.pathSet + {p});
      var added := seen.(sysPath := c.sysPath + [p]);
      ScanSucceeds(c, ps[1..], a);
      ScanSucceeds(seen, ps[1..], a);
      ScanSucceeds(added, ps[1..], a);
      var rest := forall q <- ps[1..] :: Reachable(c, q, a);
      assert (forall q <- ps :: Reachable(c, q, a)) <==> Reachable(c, p, a) && rest by {
        assert forall q <- ps :: q == p || q in ps[1..];
        assert p in ps && forall q <- ps[1..] :: q in ps;
      }
      if Reachable(c, p, a) {
        assert forall q :: Reachable(seen, q, a) == Reachable(c, q, a) == Reachable(added, q, a);
        assert AddPaths(seen, ps[1..], a).1 == rest == AddPaths(added, ps[1..], a).1 == AddPaths(c, ps[1..], a).1;
      }
    }
  }

  /** A name that is not cached is answered by its import, unless the caller's paths are new and cannot be had. */
  lemma MissAnswered(hash: seq<string> -> nat, c: Cache, x: Ctx, a: Answer)
    requires !SameCall(c, x) && x.key !in c.funcs
    ensures Resolve(hash, c, x, a).1 ==
            if hash(x.paths) == c.lastPathId || (!a.sysFails && forall p <- x.paths :: Reachable(c, p, a)) then a.fetched
            else Err("path or import error")
  {
    hide AddPaths, Reachable;
    ScanSucceeds(c, x.paths, a);
  }

  /** After path work that did not fail every path of the caller is on `sys.path`, whether or not its id
      was recognised. */
  lemma PatchedPaths(hash: seq<string> -> nat, jobs: seq<Job>, i: nat, c: Cache)
    requires IdsApart(hash, jobs) && i < |jobs| && PathInv(hash, jobs, i, c)
    ensures var (d, ok) := Patched(hash, c, jobs[i].x, jobs[i].a);
            && c.sysPath <= d.sysPath
            && (ok ==> OnPath(d, jobs[i].x.paths) && d.lastPathId == hash(jobs[i].x.paths))
            && (!ok ==> d.lastPathId == c.lastPathId)
            && (forall p <- d.pathSet :: p in d.sysPath)
  {
    hide AddPaths;
    if hash(jobs[i].x.paths) == c.lastPathId {
      var j :| 0 <= j < i && LastPathsAre(hash, jobs, c, j);
    } else {
      PathsAdded(c, jobs[i].x.paths, jobs[i].a);
      AddKeeps(c, jobs[i].x.paths, jobs[i].a);
    }
  }

  lemma PathStep(hash: seq<string> -> nat, jobs: seq<Job>, i: nat, c: Cache)
    requires IdsApart(hash, jobs) && i < |jobs| && PathInv(hash, jobs, i, c)
    ensures PathInv(hash, jobs, i + 1, Resolve(hash, c, jobs[i].x, jobs[i].a).0)
  {
    hide Patched, OnPath;
    PatchedPaths(hash, jobs, i, c);
    var (x, a) := (jobs[i].x, jobs[i].a);
    var d, q := Resolve(hash, c, x, a).0, Patched(hash, c, x, a).0;
    if d.lastPathId != NO_PATHS {
      if d.lastPathId == c.lastPathId {
        var j :| 0 <= j < i && LastPathsAre(hash, jobs, c, j);
        StillOnPath(c, d, jobs[j].x.paths);
        assert LastPathsAre(hash, jobs, d, j);
      } else {
        StillOnPath(q, d, x.paths);
        assert LastPathsAre(hash, jobs, d, i);
      }
    }
  }

  lemma StillOnPath(c: Cache, d: Cache, ps: seq<string>)
    requires OnPath(c, ps) && c.sysPath <= d.sysPath
    ensures OnPath(d, ps)
  {
  }

  /** One task: a name resolved before is answered from the caches and stays as it is; a new one is fetched
      and kept. */
  lemma StepResolves(hash: seq<string> -> nat, jobs: seq<Job>, i: nat, c: Cache)
    requires AddressesApart(Contexts(jobs)) && i < |jobs| && CallInv(jobs, i, c)
    ensures var (x, a) := (jobs[i].x, jobs[i].a);
            var (d, r) := Resolve(hash, c, x, a);
            && (x.key in c.funcs ==> r == Ok(c.funcs[x.key]) && d.funcs == c.funcs)
            && (x.key !in c.funcs && r.Ok? ==> r == a.fetched && d.funcs == c.funcs[x.key := r.value] && !SameCall(c, x))
            && (r.Err? ==> d.funcs == c.funcs && d.lastCtx == c.lastCtx && d.lastFunc == c.lastFunc)
            && (r.Ok? ==> d.lastCtx == Some(x.ptr) && d.lastFunc == Some(r.value))
  {
    hide Patched;
    PatchedKeeps(hash, c, jobs[i].x, jobs[i].a);
    if SameCall(c, jobs[i].x) {
      SameCallSameName(jobs, i, c);
    }
  }

  /** Where addresses are apart, the shortcut is taken for the name it remembers. */
  lemma SameCallSameName(jobs: seq<Job>, i: nat, c: Cache)
    requires AddressesApart(Contexts(jobs)) && i < |jobs| && CallInv(jobs, i, c) && SameCall(c, jobs[i].x)
    ensures jobs[i].x.key in c.funcs && c.funcs[jobs[i].x.key] == c.lastFunc.value
  {
    var j :| 0 <= j < i && LastCallIs(jobs, i, c, j);
    var xs := Contexts(jobs);
    assert xs[j].ptr == xs[i].ptr;
    assert forall m | j < m < i :: xs[m].key == jobs[m].x.key != xs[j].key;
  }

  lemma CallStep(hash: seq<string> -> nat, jobs: seq<Job>, i: nat, c: Cache)
    requires AddressesApart(Contexts(jobs)) && i < |jobs| && CallInv(jobs, i, c)
    ensures CallInv(jobs, i + 1, Resolve(hash, c, jobs[i].x, jobs[i].a).0)
  {
    hide Resolve, AddressesApart;
    StepResolves(hash, jobs, i, c);
    var (d, r) := Resolve(hash, c, jobs[i].x, jobs[i].a);
    if r.Ok? {
      assert LastCallIs(jobs, i + 1, d, i);
    } else if c.lastFunc.Some? {
      var j :| 0 <= j < i && LastCallIs(jobs, i, c, j);
      assert LastCallIs(jobs, i + 1, d, j);
    }
  }

  lemma {:induction false} BeforePaths(hash: seq<string> -> nat, sysPath: seq<string>, jobs: seq<Job>, i: nat)
    requires IdsApart(hash, jobs) && i <= |jobs|
    ensures PathInv(hash, jobs, i, Before(hash, sysPath, jobs, i))
  {
    hide Resolve;
    if i > 0 {
      BeforePaths(hash, sysPath, jobs, i - 1);
      PathStep(hash, jobs, i - 1, Before(hash, sysPath, jobs, i - 1));
    }
  }

  lemma {:induction false} BeforeCalls(hash: seq<string> -> nat, sysPath: seq<string>, jobs: seq<Job>, i: nat)
    requires AddressesApart(Contexts(jobs)) && i <= |jobs|
    ensures CallInv(jobs, i, Before(hash, sysPath, jobs, i))
  {
    hide Resolve, AddressesApart;
    if i > 0 {
      BeforeCalls(hash, sysPath, jobs, i - 1);
      CallStep(hash, jobs, i - 1, Before(hash, sysPath, jobs, i - 1));
    }
  }

  /** A name is in the cache exactly when an earlier task resolved it, with what that task was given. */
  lemma {:induction false} CachedIsResolved(hash: seq<string> -> nat, sysPath: seq<string>, jobs: seq<Job>, i: nat, key: Key)
    requires AddressesApart(Contexts(jobs)) && i <= |jobs|
    ensures var c := Before(hash, sysPath, jobs, i);
            && (key in c.funcs <==> exists j :: 0 <= j < i && Resolves(hash, sysPath, jobs, j, key))
            && (forall j | 0 <= j < i && Resolves(hash, sysPath, jobs, j, key) ::
                  Served(hash, sysPath, jobs, j) == Ok(c.funcs[key]))
  {
    hide Resolve, AddressesApart;
    if i > 0 {
      CachedIsResolved(hash, sysPath, jobs, i - 1, key);
      BeforeCalls(hash, sysPath, jobs, i - 1);
      StepResolves(hash, jobs, i - 1, Before(hash, sysPath, jobs, i - 1));
      if jobs[i - 1].x.key == key && Served(hash, sysPath, jobs, i - 1).Ok? {
        assert Resolves(hash, sysPath, jobs, i - 1, key);
      }
    }
  }

  predicate Resolves(hash: seq<string> -> nat, sysPath: seq<string>, jobs: seq<Job>, j: nat, key: Key)
    requires j < |jobs|
  {
    jobs[j].x.key == key && Served(hash, sysPath, jobs, j).Ok?
  }

  ghost predicate ResolvedBefore(hash: seq<string> -> nat, sysPath: seq<string>, jobs: seq<Job>, i: nat, key: Key)
    requires i <= |jobs|
  {
    exists j :: 0 <= j < i && Resolves(hash, sysPath, jobs, j, key)
  }

  /** Task `i` gets the function this worker first resolved for its name; if there is none yet, the one its own
      import gives. */
  ghost predicate FirstResolved(hash: seq<string> -> nat, sysPath: seq<string>, jobs: seq<Job>, i: nat)
    requires i < |jobs|
  {
    var key, r := jobs[i].x.key, Served(hash, sysPath, jobs, i);
    && (forall j | 0 <= j < i && Resolves(hash, sysPath, jobs, j, key) :: r == Served(hash, sysPath, jobs, j))
    && (!ResolvedBefore(hash, sysPath, jobs, i, key) && r.Ok? ==> r == jobs[i].a.fetched)
  }

  /** Over any sequence of tasks, failing ones included, the function called is the one this worker first
      resolved for that name; and it was imported with every path of its caller on `sys.path`. */
  lemma FirstResolvedIsCalled(hash: seq<string> -> nat, sysPath: seq<string>, jobs: seq<Job>, i: nat)
    requires AddressesApart(Contexts(jobs)) && i < |jobs|
    ensures FirstResolved(hash, sysPath, jobs, i)
    ensures IdsApart(hash, jobs) && !ResolvedBefore(hash, sysPath, jobs, i, jobs[i].x.key) && Served(hash, sysPath, jobs, i).Ok? ==>
              OnPath(Before(hash, sysPath, jobs, i + 1), jobs[i].x.paths)
  {
    hide Resolve, Before, AddressesApart, OnPath;
    var c := Before(hash, sysPath, jobs, i);
    BeforeCalls(hash, sysPath, jobs, i);
    CachedIsResolved(hash, sysPath, jobs, i, jobs[i].x.key);
    StepResolves(hash, jobs, i, c);
    BeforeNext(hash, sysPath, jobs, i);
    if IdsApart(hash, jobs) && jobs[i].x.key !in c.funcs && Served(hash, sysPath, jobs, i).Ok? {
      BeforePaths(hash, sysPath, jobs, i);
      PatchedPaths(hash, jobs, i, c);
      ImportPatches(hash, c, jobs[i].x, jobs[i].a);
      StillOnPath(Patched(hash, c, jobs[i].x, jobs[i].a).0, Before(hash, sysPath, jobs, i + 1), jobs[i].x.paths);
    }
  }

  lemma ImportPatches(hash: seq<string> -> nat, c: Cache, x: Ctx, a: Answer)
    requires !SameCall(c, x) && x.key !in c.funcs && Resolve(hash, c, x, a).1.Ok?
    ensures Patched(hash, c, x, a).1 && Resolve(hash, c, x, a).0.sysPath == Patched(hash, c, x, a).0.sysPath
  {
    hide Patched;
  }

  lemma BeforeNext(hash: seq<string> -> nat, sysPath: seq<string>, jobs: seq<Job>, i: nat)
    requires i < |jobs|
    ensures Before(hash, sysPath, jobs, i + 1) == Resolve(hash, Before(hash, sysPath, jobs, i), jobs[i].x, jobs[i].a).0
  {
  }

  // ----- the shortcut for the same call -----

  function Jobs(xs: seq<Ctx>, answers: seq<Answer>): seq<Job>
    requires |answers| == |xs|
  {
    seq(|xs|, i requires 0 <= i < |xs| => Job(xs[i], answers[i]))
  }

  /** Every task of these calls gets the function first resolved for its name, however the imports turn out. */
  ghost predicate AlwaysFirst(hash: seq<string> -> nat, sysPath: seq<string>, xs: seq<Ctx>) {
    forall answers: seq<Answer>, i | |answers| == |xs| && 0 <= i < |xs| :: FirstResolved(hash, sysPath, Jobs(xs, answers), i)
  }

  /** The shortcut for the same call, which looks at the address only, is right for every outcome of the imports
      exactly if addresses are apart. */
  lemma ShortcutIsRight(hash: seq<string> -> nat, sysPath: seq<string>, xs: seq<Ctx>)
    ensures AlwaysFirst(hash, sysPath, xs) <==> AddressesApart(xs)
  {
    hide Before, FirstResolved;
    if AddressesApart(xs) {
      forall answers: seq<Answer>, i | |answers| == |xs| && 0 <= i < |xs| ensures FirstResolved(hash, sysPath, Jobs(xs, answers), i) {
        assert Contexts(Jobs(xs, answers)) == xs;
        FirstResolvedIsCalled(hash, sysPath, Jobs(xs, answers), i);
      }
    } else {
      var l, i :| 0 <= l < i < |xs| && xs[l].ptr == xs[i].ptr && xs[l].key != xs[i].key && !exists m :: l < m < i && xs[m].key == xs[l].key;
      var t := FirstReuse(xs, l, i);
      ReusedAddress(hash, sysPath, xs, l, t);
      assert !FirstResolved(hash, sysPath, Jobs(xs, OnlyAt(xs, l)), t);
    }
  }

  /** The first task after `l` at the same address. */
  lemma {:induction false} FirstReuse(xs: seq<Ctx>, l: nat, i: nat) returns (t: nat)
    requires l < i < |xs| && xs[l].ptr == xs[i].ptr
    ensures l < t <= i && xs[t].ptr == xs[l].ptr && forall m | l < m < t :: xs[m].ptr != xs[l].ptr
    decreases i
  {
    if m :| l < m < i && xs[m].ptr == xs[l].ptr {
      t := FirstReuse(xs, l, m);
    } else {
      t := i;
    }
  }

  const REFUSED: Answer := Answer(false, {}, {}, Err("no such module"))

  /** All imports fail, but that of task `l`. */
  function OnlyAt(xs: seq<Ctx>, l: nat): seq<Answer>
    requires l < |xs|
  {
    seq(|xs|, i requires 0 <= i < |xs| => if i == l then REFUSED.(fetched := Ok(0)) else REFUSED)
  }

  /** A context allocated where that of the last answered task was freed: the earlier call's function is served for
      a name no task has resolved and whose import fails. */
  lemma ReusedAddress(hash: seq<string> -> nat, sysPath: seq<string>, xs: seq<Ctx>, l: nat, t: nat)
    requires l < t < |xs| && xs[t].ptr == xs[l].ptr && xs[t].key != xs[l].key
    requires forall m | l < m < t :: xs[m].ptr != xs[l].ptr && xs[m].key != xs[l].key
    ensures var jobs := Jobs(xs, OnlyAt(xs, l));
            && Served(hash, sysPath, jobs, l) == Ok(0) == Served(hash, sysPath, jobs, t) && jobs[t].a.fetched.Err?
            && !ResolvedBefore(hash, sysPath, jobs, t, xs[t].key) && !FirstResolved(hash, sysPath, jobs, t)
  {
    hide Resolve, Before;
    var jobs := Jobs(xs, OnlyAt(xs, l));
    NothingYet(hash, sysPath, xs, l, l);
    OneHeld(hash, sysPath, xs, l, t);
    assert Served(hash, sysPath, jobs, t) == Ok(0) by {
      TakesShortcut(hash, Before(hash, sysPath, jobs, t), xs[t], jobs[t].a);
    }
  }

  lemma TakesShortcut(hash: seq<string> -> nat, c: Cache, x: Ctx, a: Answer)
    requires SameCall(c, x)
    ensures Resolve(hash, c, x, a) == (c, Ok(c.lastFunc.value))
  {
  }

  /** While every import fails nothing is cached. */
  lemma {:induction false} NothingYet(hash: seq<string> -> nat, sysPath: seq<string>, xs: seq<Ctx>, l: nat, i: nat)
    requires i <= l < |xs|
    ensures var jobs, c := Jobs(xs, OnlyAt(xs, l)), Before(hash, sysPath, Jobs(xs, OnlyAt(xs, l)), i);
            && c.funcs == map[] && c.lastFunc == None
            && forall j | 0 <= j < i :: Served(hash, sysPath, jobs, j).Err?
    decreases i
  {
    hide Patched, Before;
    var jobs := Jobs(xs, OnlyAt(xs, l));
    if i == 0 {
      assert Before(hash, sysPath, jobs, 0) == Empty(sysPath) by { BeforeNone(hash, sysPath, jobs); }
    } else {
      NothingYet(hash, sysPath, xs, l, i - 1);
      BeforeNext(hash, sysPath, jobs, i - 1);
      PatchedKeeps(hash, Before(hash, sysPath, jobs, i - 1), xs[i - 1], jobs[i - 1].a);
    }
  }

  lemma BeforeNone(hash: seq<string> -> nat, sysPath: seq<string>, jobs: seq<Job>)
    ensures Before(hash, sysPath, jobs, 0) == Empty(sysPath)
  {
  }

  /** After the one import that succeeds, its function is the one remembered. */
  lemma {:induction false} OneHeld(hash: seq<string> -> nat, sysPath: seq<string>, xs: seq<Ctx>, l: nat, i: nat)
    requires l < i < |xs| && forall m | l < m < i :: xs[m].ptr != xs[l].ptr && xs[m].key != xs[l].key
    ensures var jobs, c := Jobs(xs, OnlyAt(xs, l)), Before(hash, sysPath, Jobs(xs, OnlyAt(xs, l)), i);
            && c.funcs == map[xs[l].key := 0] && c.lastFunc == Some(0) && c.lastCtx == Some(xs[l].ptr)
            && Served(hash, sysPath, jobs, l) == Ok(0)
            && forall j | 0 <= j < i && j != l :: Served(hash, sysPath, jobs, j).Err?
    decreases i
  {
    hide Patched, Before;
    var jobs := Jobs(xs, OnlyAt(xs, l));
    BeforeNext(hash, sysPath, jobs, i - 1);
    PatchedKeeps(hash, Before(hash, sysPath, jobs, i - 1), xs[i - 1], jobs[i - 1].a);
    if i - 1 == l {
      NothingYet(hash, sysPath, xs, l, l);
      NothingFails(hash, Before(hash, sysPath, jobs, l), xs[l], jobs[l].a);
    } else {
      OneHeld(hash, sysPath, xs, l, i - 1);
    }
  }

  lemma NothingFails(hash: seq<string> -> nat, c: Cache, x: Ctx, a: Answer)
    requires !a.sysFails && a.lookFails == {} && a.appendFails == {}
    ensures Patched(hash, c, x, a).1
  {
    AllAdded(c, x.paths, a);
  }

  lemma {:induction false} AllAdded(c: Cache, ps: seq<string>, a: Answer)
    requires a.lookFails == {} && a.appendFails == {}
    ensures AddPaths(c, ps, a).1
    decreases |ps|
  {
    if ps != [] {
      var p := ps[0];
      AllAdded(c, ps[1..], a);
      AllAdded(c.(pathSet := c.pathSet + {p}), ps[1..], a);
      AllAdded(c.(pathSet := c.pathSet + {p}, sysPath := c.sysPath + [p]), ps[1..], a);
    }
  }

  // ----- as the worker does it -----

  class Worker {
    const hash: seq<string> -> nat
    var funcCache: map<Key, Func>
    var pathSet: set<string>
    var lastCtxPtr: Option<nat>
    var lastFunc: Option<Func>
    var lastSysPathId: nat
    var sysPath: seq<string>

    constructor (hash: seq<string> -> nat, sysPath: seq<string>)
      ensures this.hash == hash && St() == Empty(sysPath)
    {
      this.hash, this.sysPath := hash, sysPath;
      funcCache, pathSet, lastCtxPtr, lastFunc, lastSysPathId := map[], {}, None, None, NO_PATHS;
    }

    function St(): Cache
      reads this
    {
      Cache(funcCache, pathSet, lastCtxPtr, lastFunc, lastSysPathId, sysPath)
    }

    /** The path scan: each path is remembered as soon as it is known to be on `sys.path`. */
    method Scan(ps: seq<string>, a: Answer) returns (ok: bool)
      modifies this
      ensures (St(), ok) == AddPaths(old(St()), ps, a)
    {
      ghost var all := AddPaths(St(), ps, a);
      for i := 0 to |ps|
        invariant AddPaths(St(), ps[i..], a) == all
      {
        assert ps[i..][0] == ps[i] && ps[i..][1..] == ps[i + 1..];
        if ps[i] !in pathSet {
          if ps[i] in a.lookFails {
            return false;
          }
          if ps[i] !in sysPath {
            if ps[i] in a.appendFails {
              return false;
            }
            sysPath := sysPath + [ps[i]];
          }
          pathSet := pathSet + {ps[i]};
        }
      }
      ok := true;
    }

    method ResolveTask(x: Ctx, a: Answer) returns (r: Result<Func, string>)
      modifies this
      ensures (St(), r) == Resolve(hash, old(St()), x, a)
    {
      hide AddPaths;
      if lastCtxPtr == Some(x.ptr) && lastFunc.Some? {
        return Ok(lastFunc.value);
      }
      if x.key in funcCache {
        lastCtxPtr, lastFunc := Some(x.ptr), Some(funcCache[x.key]);
        return Ok(funcCache[x.key]);
      }
      if hash(x.paths) != lastSysPathId {
        if a.sysFails {
          return Err(FAILED);
        }
        var ok := Scan(x.paths, a);
        if !ok {
          return Err(FAILED);
        }
        lastSysPathId := hash(x.paths);
      }
      if a.fetched.Err? {
        return Err(a.fetched.error);
      }
      funcCache := funcCache[x.key := a.fetched.value];
      lastCtxPtr, lastFunc := Some(x.ptr), Some(a.fetched.value);
      r := Ok(a.fetched.value);
    }
  }
}
