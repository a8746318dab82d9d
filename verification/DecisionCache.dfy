/** The router's decision cache (gilmap/_router.py): decisions keyed by object id, evicted by a weak-reference
    callback when the object dies, under garbage collection and reuse of ids. */
module DecisionCache {
  import opened Wrappers

  /** A Python object, its identity for all time, and whether weak references to it can be made. */
  datatype Obj = Obj(serial: nat, weakable: bool)

  datatype Decision = Decision(backend: string, reason: string)

  type Detector = Obj -> Option<Decision>

  const FALLBACK := Decision("subinterp", "no faster backend matched")

  /** Routing without a cache: the first detector that knows the function decides. */
  function Route(detectors: seq<Detector>, f: Obj): Decision {
    if detectors == [] then FALLBACK
    else if detectors[0](f).Some? then detectors[0](f).value
    else Route(detectors[1..], f)
  }

  /** `d` is the decision of a detector that knows the function while none before it does, or no detector knows it
      and `d` sends it to a sub-interpreter. */
  ghost predicate Decides(detectors: seq<Detector>, f: Obj, d: Decision) {
    || (exists i :: 0 <= i < |detectors| && IsFirst(detectors, f, i) && detectors[i](f) == Some(d))
    || (d == Decision("subinterp", "no faster backend matched") && forall i | 0 <= i < |detectors| :: detectors[i](f) == None)
  }

  predicate IsFirst(detectors: seq<Detector>, f: Obj, i: nat)
    requires i < |detectors|
  {
    detectors[i](f).Some? && forall j | 0 <= j < i :: detectors[j](f) == None
  }

  lemma {:induction false} RouteDecides(detectors: seq<Detector>, f: Obj, d: Decision)
    ensures Route(detectors, f) == d <==> Decides(detectors, f, d)
  {
    if detectors != [] {
      if detectors[0](f).Some? {
        assert IsFirst(detectors, f, 0);
      } else {
        var rest := detectors[1..];
        RouteDecides(rest, f, d);
        if i :| 0 <= i < |rest| && IsFirst(rest, f, i) && rest[i](f) == Some(d) {
          assert IsFirst(detectors, f, i + 1) && detectors[i + 1](f) == Some(d);
        }
        if i :| 0 <= i < |detectors| && IsFirst(detectors, f, i) && detectors[i](f) == Some(d) {
          assert IsFirst(rest, f, i - 1) && rest[i - 1](f) == Some(d);
        }
        assert detectors == [detectors[0]] + rest;
      }
    }
  }

  /** A weak reference: what it points to, and the id its callback evicts. */
  datatype WeakRef = WeakRef(target: Obj, fid: nat)

  /** The two module-level dictionaries, and the objects now alive by id. */
  datatype State = State(decisions: map<nat, Decision>, finalizers: map<nat, WeakRef>, live: map<nat, Obj>)

  datatype Event =
    | Create(id: nat, f: Obj)      // an object comes into being at a free address
    | Decide(id: nat)              // the router is asked about the object living there
    | Collect(id: nat)             // the object dies; callbacks of its weak references run
    | Reset

  predicate Enabled(s: State, e: Event) {
    match e
    case Create(id, _) => id !in s.live
    case Decide(id) => id in s.live
    case Collect(id) => id in s.live
    case Reset => true
  }

  function Without<T>(m: map<nat, T>, ids: set<nat>): map<nat, T> {
    map k | k in m && k !in ids :: m[k]
  }

  /** Ids whose entries a dying object's callbacks evict: only weak references still held are called. */
  function Evicted(s: State, f: Obj): set<nat> {
    set k | k in s.finalizers && s.finalizers[k].target == f :: s.finalizers[k].fid
  }

  /** The decision is stored first; if no weak reference can be made it is taken out again. */
  function Cached(s: State, id: nat, d: Decision): State
    requires id in s.live
  {
    if s.live[id].weakable then
      s.(decisions := s.decisions[id := d], finalizers := s.finalizers[id := WeakRef(s.live[id], id)])
    else s.(decisions := Without(s.decisions, {id}))
  }

  function Apply(detectors: seq<Detector>, s: State, e: Event): State
    requires Enabled(s, e)
  {
    match e
    case Create(id, f) => s.(live := s.live[id := f])
    case Decide(id) => if id in s.decisions then s else Cached(s, id, Route(detectors, s.live[id]))
    case Collect(id) =>
      var gone := Evicted(s, s.live[id]);
      State(Without(s.decisions, gone), Without(s.finalizers, gone), Without(s.live, {id}))
    case Reset => s.(decisions := map[], finalizers := map[])
  }

  /** What the router answers. */
  function Answer(detectors: seq<Detector>, s: State, id: nat): Decision
    requires id in s.live
  {
    if id in s.decisions then s.decisions[id] else Route(detectors, s.live[id])
  }

  /** The dictionaries have the same keys; each names a live, weakly referenceable function, with the decision
      for that very object and a weak reference to it; ids of live objects are theirs alone. */
  predicate Inv(detectors: seq<Detector>, s: State) {
    && s.decisions.Keys == s.finalizers.Keys
    && (forall id <- s.decisions ::
          && id in s.live && s.live[id].weakable
          && s.decisions[id] == Route(detectors, s.live[id])
          && s.finalizers[id] == WeakRef(s.live[id], id))
    && (forall i <- s.live, j <- s.live :: s.live[i] == s.live[j] ==> i == j)
  }

  /** A new object is a new object. */
  predicate Fresh(s: State, e: Event) { e.Create? ==> forall i <- s.live :: s.live[i] != e.f }

  lemma StepInv(detectors: seq<Detector>, s: State, e: Event)
    requires Inv(detectors, s) && Enabled(s, e) && Fresh(s, e)
    ensures Inv(detectors, Apply(detectors, s, e))
  {
    hide Route;
    if e.Collect? {
      EvictsOwn(detectors, s, e.id);
    }
  }

  /** When an object dies exactly its own entry goes. */
  lemma EvictsOwn(detectors: seq<Detector>, s: State, id: nat)
    requires Inv(detectors, s) && id in s.live
    ensures Evicted(s, s.live[id]) == if id in s.decisions then {id} else {}
  {
    hide Route;
    var gone := Evicted(s, s.live[id]);
    assert forall k <- s.finalizers :: k in s.decisions;
    assert forall k <- s.finalizers :: s.finalizers[k].target == s.live[id] <==> k == id;
    if id in s.decisions {
      assert id in s.finalizers && s.finalizers[id].fid == id;
      assert id in gone;
    }
  }

  // ----- any sequence of events -----

  ghost predicate Happens(detectors: seq<Detector>, s: State, events: seq<Event>, end: State)
    decreases |events|
  {
    if events == [] then end == s
    else
      && Enabled(s, events[0]) && Fresh(s, events[0])
      && Happens(detectors, Apply(detectors, s, events[0]), events[1..], end)
  }

  function Start(): State { State(map[], map[], map[]) }

  lemma {:induction false} RunInv(detectors: seq<Detector>, s: State, events: seq<Event>, end: State)
    requires Inv(detectors, s) && Happens(detectors, s, events, end)
    ensures Inv(detectors, end)
    decreases |events|
  {
    hide Inv, Apply, Enabled;
    if events != [] {
      StepInv(detectors, s, events[0]);
      RunInv(detectors, Apply(detectors, s, events[0]), events[1..], end);
    }
  }

  /** After any history of decisions, collections, reuse of ids and resets the router answers with the first
      detector that knows the function, and asking leaves an entry exactly if the function can be watched. */
  lemma AnswersAsUncached(detectors: seq<Detector>, events: seq<Event>, s: State, id: nat)
    requires Happens(detectors, Start(), events, s) && id in s.live
    ensures forall d :: Answer(detectors, s, id) == d <==> Decides(detectors, s.live[id], d)
    ensures var t := Apply(detectors, s, Decide(id));
            && (id in t.decisions <==> s.live[id].weakable) && t.live == s.live
            && forall k | k != id :: k in t.decisions <==> k in s.decisions
  {
    hide Route, Decides;
    RunInv(detectors, Start(), events, s);
    forall d ensures Answer(detectors, s, id) == d <==> Decides(detectors, s.live[id], d) {
      RouteDecides(detectors, s.live[id], d);
    }
  }

  // ----- as the module does it -----

  class Router {
    const detectors: seq<Detector>
    var decisionCache: map<nat, Decision>
    var finalizers: map<nat, WeakRef>
    var live: map<nat, Obj>

    constructor (detectors: seq<Detector>)
      ensures this.detectors == detectors && St() == Start()
    {
      this.detectors := detectors;
      decisionCache, finalizers, live := map[], map[], map[];
    }

    function St(): State reads this { State(decisionCache, finalizers, live) }

    method CacheDecision(id: nat, d: Decision) returns (r: Decision)
      requires id in live
      modifies this`decisionCache, this`finalizers
      ensures r == d && St() == Cached(old(St()), id, d)
      ensures if live[id].weakable
              then decisionCache == old(decisionCache)[id := d] && finalizers == old(finalizers)[id := WeakRef(live[id], id)]
              else decisionCache == old(decisionCache) - {id} && finalizers == old(finalizers)
    {
      decisionCache := decisionCache[id := d];
      if live[id].weakable {
        finalizers := finalizers[id := WeakRef(live[id], id)];
      } else {
        ghost var before := old(decisionCache);
        decisionCache := map k | k in decisionCache && k != id :: decisionCache[k];
        assert decisionCache == Without(before, {id});
      }
      r := d;
    }

    method Evict(fid: nat)
      modifies this`decisionCache, this`finalizers
      ensures decisionCache == Without(old(decisionCache), {fid}) && finalizers == Without(old(finalizers), {fid})
    {
      decisionCache := map k | k in decisionCache && k != fid :: decisionCache[k];
      finalizers := map k | k in finalizers && k != fid :: finalizers[k];
    }

    /** `decide`: the cached decision, or that of the first detector that knows the function. */
    method DecideFor(id: nat) returns (d: Decision)
      requires id in live
      modifies this`decisionCache, this`finalizers
      ensures id !in old(decisionCache) || Inv(detectors, old(St())) ==> Decides(detectors, live[id], d)
      ensures d == Answer(detectors, old(St()), id) && St() == Apply(detectors, old(St()), Decide(id))
    {
      hide Decides;
      RouteDecides(detectors, live[id], Route(detectors, live[id]));
      if id in decisionCache {
        return decisionCache[id];
      }
      var i := 0;
      while i < |detectors|
        invariant i <= |detectors| && Route(detectors[i..], live[id]) == Route(detectors, live[id])
        invariant St() == old(St())
      {
        assert detectors[i..][0] == detectors[i] && detectors[i..][1..] == detectors[i + 1..];
        var found := detectors[i](live[id]);
        if found.Some? {
          d := CacheDecision(id, found.value);
          return;
        }
        i := i + 1;
      }
      d := CacheDecision(id, FALLBACK);
    }

    /** The interpreter frees an object: the callback of the weak reference the cache holds evicts it. */
    method CollectAt(id: nat)
      requires id in live && Inv(detectors, St())
      modifies this
      ensures St() == Apply(detectors, old(St()), Collect(id))
      ensures live == old(live) - {id} && decisionCache == old(decisionCache) - {id} && finalizers == old(finalizers) - {id}
    {
      hide Route;
      EvictsOwn(detectors, St(), id);
      var f := live[id];
      ghost var before := St();
      live := map k | k in live && k != id :: live[k];
      if id in finalizers && finalizers[id].target == f {
        Evict(finalizers[id].fid);
      } else {
        assert decisionCache == Without(before.decisions, {}) && finalizers == Without(before.finalizers, {});
      }
      assert live == Without(before.live, {id});
    }

    method ResetCache()
      modifies this`decisionCache, this`finalizers
      ensures St() == Apply(detectors, old(St()), Reset) && decisionCache == map[] && finalizers == map[]
    {
      decisionCache, finalizers := map[], map[];
    }
  }
}
