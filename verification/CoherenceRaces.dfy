/**
  Reads and writes through the cache as they overlap.  The map cache's mutex covers one Get, one Set or
  one poll; nothing covers a whole call.  A read is a lookup, then a load, then a fill; a write is a store
  write, then a cache set; and any number of callers take these steps in any order.
 */
module CoherenceRaces {
  import opened Wrappers
  import M = MapCache
  import C = Coherence

  type Value = M.Value

  datatype Write = Write(key: string, val: Value)

  /** Where a caller is: `seen` counts the store writes there had been when it got its value. */
  datatype Pc =
    | Missed(key: string)
    | Loaded(key: string, val: Value, seen: nat)
    | Stored(key: string, val: Value, seen: nat)

  /** `writes` is every successful store write so far, in order. */
  datatype State = State(data: M.Data, store: map<string, Value>, writes: seq<Write>, pcs: map<nat, Pc>)

  /** A store write that fails and a read that hits leave no caller behind. */
  datatype Step =
    | Lookup(t: nat, key: string, now: nat)
    | Load(t: nat)
    | GiveUp(t: nat)                                   // the load fails, or the filter does not have the key
    | Fill(t: nat, expiration: int, now: nat)
    | StoreWrite(t: nat, key: string, val: Value)
    | CacheSet(t: nat, expiration: int, now: nat)
    | PollCache(order: seq<string>, now: nat)

  predicate Enabled(s: State, step: Step) {
    match step
    case Lookup(t, _, _) => t !in s.pcs
    case Load(t) => t in s.pcs && s.pcs[t].Missed? && s.pcs[t].key in s.store
    case GiveUp(t) => t in s.pcs && s.pcs[t].Missed?
    case Fill(t, _, _) => t in s.pcs && s.pcs[t].Loaded?
    case StoreWrite(t, _, _) => t !in s.pcs
    case CacheSet(t, _, _) => t in s.pcs && s.pcs[t].Stored?
    case PollCache(_, _) => true
  }

  function Put(s: State, t: nat, expiration: int, now: nat): State
    requires t in s.pcs && !s.pcs[t].Missed?
  {
    s.(data := M.Store(s.data, s.pcs[t].key, s.pcs[t].val, expiration, now), pcs := s.pcs - {t})
  }

  function Next(s: State, step: Step): State
    requires Enabled(s, step)
  {
    match step
    case Lookup(t, key, now) =>
      if key in s.data then s.(data := M.Purge(s.data, [key], now)) else s.(pcs := s.pcs[t := Missed(key)])
    case Load(t) => s.(pcs := s.pcs[t := Loaded(s.pcs[t].key, s.store[s.pcs[t].key], |s.writes|)])
    case GiveUp(t) => s.(pcs := s.pcs - {t})
    case Fill(t, expiration, now) => Put(s, t, expiration, now)
    case StoreWrite(t, key, val) =>
      s.(store := s.store[key := val], writes := s.writes + [Write(key, val)],
         pcs := s.pcs[t := Stored(key, val, |s.writes| + 1)])
    case CacheSet(t, expiration, now) => Put(s, t, expiration, now)
    case PollCache(order, now) => s.(data := M.Purge(s.data, M.Looked(order), now))
  }

  ghost predicate IsRun(states: seq<State>, steps: seq<Step>) {
    |states| == |steps| + 1
    && forall i :: 0 <= i < |steps| ==> Enabled(states[i], steps[i]) && states[i + 1] == Next(states[i], steps[i])
  }

  /** A run that starts with nobody under way and a cache that agrees with the store. */
  ghost predicate IsHistory(states: seq<State>, steps: seq<Step>) {
    IsRun(states, steps) && states[0].writes == [] && states[0].pcs == map[]
    && C.Coherent(C.Sys(states[0].data, states[0].store))
  }

  // ---- One caller at a time ----

  /** Undisturbed, the three steps of a read are `GetV3`. */
  lemma ReadInOneGo(s: State, t: nat, key: string, expiration: int, now: nat)
    requires t !in s.pcs && key !in s.data && key in s.store
    ensures var s1 := Next(s, Lookup(t, key, now)); var s2 := Next(s1, Load(t)); var s3 := Next(s2, Fill(t, expiration, now));
            s3.pcs == s.pcs && C.Sys(s3.data, s3.store) == C.GetV3(C.Sys(s.data, s.store), key, expiration, now, true).0
  {
  }

  /** And the two steps of a write are `WriteThroughCache.Set`. */
  lemma WriteInOneGo(s: State, t: nat, key: string, val: Value, expiration: int, now: nat)
    requires t !in s.pcs
    ensures var s1 := Next(s, StoreWrite(t, key, val)); var s2 := Next(s1, CacheSet(t, expiration, now));
            s2.pcs == s.pcs && C.Sys(s2.data, s2.store) == C.SetThrough(C.Sys(s.data, s.store), key, val, expiration, now, true)
  {
  }

  // ---- Coherence of one key ----

  predicate CoherentAt(s: State, key: string) {
    key in s.data ==> key in s.store && s.data[key].val == s.store[key]
  }

  predicate PutsUnder(s: State, step: Step, key: string) {
    (step.Fill? || step.CacheSet?) && step.t in s.pcs && s.pcs[step.t].key == key
  }

  predicate WritesUnder(step: Step, key: string) {
    step.StoreWrite? && step.key == key
  }

  /**
    Exactly what each step does to a key: filling or setting leaves it coherent if and only if the store
    has that very value at that moment, a store write if and only if it is not cached with another value,
    and any other step if and only if it was coherent or its entry goes.
   */
  lemma StepCoherentIff(s: State, step: Step, key: string)
    requires Enabled(s, step)
    ensures CoherentAt(Next(s, step), key)
       <==> if PutsUnder(s, step, key) then key in s.store && s.store[key] == s.pcs[step.t].val
            else if WritesUnder(step, key) then key in s.data ==> s.data[key].val == step.val
            else CoherentAt(s, key) || key !in Next(s, step).data
  {
  }

  // ---- Where a cached value came from ----

  /** The value a key had after these writes. */
  function ValueAfter(store: map<string, Value>, writes: seq<Write>, key: string): Option<Value> {
    if writes == [] then if key in store then Some(store[key]) else None
    else
      var last := writes[|writes| - 1];
      if last.key == key then Some(last.val) else ValueAfter(store, writes[..|writes| - 1], key)
  }

  lemma ValueAfterOneMore(store: map<string, Value>, writes: seq<Write>, w: Write, key: string)
    ensures ValueAfter(store, writes + [w], key) == if w.key == key then Some(w.val) else ValueAfter(store, writes, key)
  {
    assert (writes + [w])[..|writes|] == writes;
  }

  predicate WasSeen(store: map<string, Value>, writes: seq<Write>, key: string, val: Value, seen: nat) {
    seen <= |writes| && ValueAfter(store, writes[..seen], key) == Some(val)
  }

  /** The store is what the writes made of it, and every value under way was the store's when it was got. */
  ghost predicate Inv(start: map<string, Value>, s: State) {
    (forall k :: ValueAfter(start, s.writes, k) == if k in s.store then Some(s.store[k]) else None)
    && (forall t :: t in s.pcs && !s.pcs[t].Missed? ==> WasSeen(start, s.writes, s.pcs[t].key, s.pcs[t].val, s.pcs[t].seen))
  }

  lemma SeenStays(start: map<string, Value>, writes: seq<Write>, w: Write, key: string, val: Value, seen: nat)
    requires WasSeen(start, writes, key, val, seen)
    ensures WasSeen(start, writes + [w], key, val, seen)
  {
    assert (writes + [w])[..seen] == writes[..seen];
  }

  lemma StepKeepsInv(start: map<string, Value>, s: State, step: Step)
    requires Inv(start, s) && Enabled(s, step)
    ensures Inv(start, Next(s, step))
  {
    var s' := Next(s, step);
    if step.StoreWrite? {
      var w := Write(step.key, step.val);
      forall k
        ensures ValueAfter(start, s'.writes, k) == if k in s'.store then Some(s'.store[k]) else None
      {
        ValueAfterOneMore(start, s.writes, w, k);
      }
      forall t | t in s'.pcs && !s'.pcs[t].Missed?
        ensures WasSeen(start, s'.writes, s'.pcs[t].key, s'.pcs[t].val, s'.pcs[t].seen)
      {
        if t == step.t {
          assert s'.writes[..|s.writes| + 1] == s'.writes;
        } else {
          SeenStays(start, s.writes, w, s.pcs[t].key, s.pcs[t].val, s.pcs[t].seen);
        }
      }
    } else if step.Load? {
      assert s.writes[..|s.writes|] == s.writes;
    }
  }

  lemma {:induction false} RunKeepsInv(states: seq<State>, steps: seq<Step>, n: nat)
    requires IsHistory(states, steps) && n < |states|
    ensures Inv(states[0].store, states[n])
  {
    if n > 0 {
      RunKeepsInv(states, steps, n - 1);
      StepKeepsInv(states[0].store, states[n - 1], steps[n - 1]);
    }
  }

  /** How many store writes there had been when the value last put in the cache under the key was got. */
  function LastSeen(states: seq<State>, steps: seq<Step>, n: nat, key: string): nat
    requires |states| == |steps| + 1 && n < |states|
  {
    if n == 0 then 0
    else if PutsUnder(states[n - 1], steps[n - 1], key) && !states[n - 1].pcs[steps[n - 1].t].Missed?
    then states[n - 1].pcs[steps[n - 1].t].seen
    else LastSeen(states, steps, n - 1, key)
  }

  lemma WritesGrow(s: State, step: Step)
    requires Enabled(s, step)
    ensures Next(s, step).writes == if step.StoreWrite? then s.writes + [Write(step.key, step.val)] else s.writes
  {
  }

  /** A cached value was the store's when whoever last put it there got it. */
  lemma {:induction false} CachedWasSeen(states: seq<State>, steps: seq<Step>, n: nat, key: string)
    requires IsHistory(states, steps) && n < |states| && key in states[n].data
    ensures WasSeen(states[0].store, states[n].writes, key, states[n].data[key].val, LastSeen(states, steps, n, key))
  {
    if n > 0 {
      var s, step := states[n - 1], steps[n - 1];
      RunKeepsInv(states, steps, n - 1);
      WritesGrow(s, step);
      if !PutsUnder(s, step, key) {
        StaysCached(s, step, key);
        CachedWasSeen(states, steps, n - 1, key);
        if step.StoreWrite? {
          SeenStays(states[0].store, s.writes, Write(step.key, step.val), key, s.data[key].val,
                    LastSeen(states, steps, n - 1, key));
        }
      }
    }
  }

  lemma StaysCached(s: State, step: Step, key: string)
    requires Enabled(s, step) && !PutsUnder(s, step, key) && key in Next(s, step).data
    ensures key in s.data && Next(s, step).data[key] == s.data[key]
  {
  }

  /**
    At every point of every interleaving, a key is coherent if and only if it is not cached, or the value
    the store had for it when the cached value was got is the value the store has for it now.
   */
  lemma CoherentIff(states: seq<State>, steps: seq<Step>, n: nat, key: string)
    requires IsHistory(states, steps) && n < |states|
    ensures LastSeen(states, steps, n, key) <= |states[n].writes|
    ensures CoherentAt(states[n], key)
       <==> key !in states[n].data
            || ValueAfter(states[0].store, states[n].writes[..LastSeen(states, steps, n, key)], key)
               == ValueAfter(states[0].store, states[n].writes, key)
  {
    RunKeepsInv(states, steps, n);
    LastSeenBound(states, steps, n, key);
    if key in states[n].data {
      CachedWasSeen(states, steps, n, key);
    }
  }

  lemma {:induction false} LastSeenBound(states: seq<State>, steps: seq<Step>, n: nat, key: string)
    requires IsHistory(states, steps) && n < |states|
    ensures LastSeen(states, steps, n, key) <= |states[n].writes|
  {
    if n > 0 {
      LastSeenBound(states, steps, n - 1, key);
      RunKeepsInv(states, steps, n - 1);
      WritesGrow(states[n - 1], steps[n - 1]);
    }
  }

  // ---- What a read can return ----

  lemma {:induction false} MomentOf(states: seq<State>, steps: seq<Step>, n: nat, j: nat) returns (m: nat)
    requires IsHistory(states, steps) && n < |states| && j <= |states[n].writes|
    ensures m <= n && states[m].writes == states[n].writes[..j]
  {
    if j == |states[n].writes| {
      m := n;
      assert states[n].writes[..j] == states[n].writes;
    } else {
      WritesGrow(states[n - 1], steps[n - 1]);
      m := MomentOf(states, steps, n - 1, j);
      assert states[n].writes[..j] == states[n - 1].writes[..j];
    }
  }

  /** However stale, a value found in the cache is one the store had for that key at some moment of the history. */
  lemma HitWasStored(states: seq<State>, steps: seq<Step>, n: nat, key: string) returns (m: nat)
    requires IsHistory(states, steps) && n < |states| && key in states[n].data
    ensures m <= n && key in states[m].store && states[m].store[key] == states[n].data[key].val
  {
    CachedWasSeen(states, steps, n, key);
    m := MomentOf(states, steps, n, LastSeen(states, steps, n, key));
    RunKeepsInv(states, steps, m);
  }

  // ---- Which interleavings are safe ----

  /** Nobody wrote the key between the moments a value was got and put in the cache. */
  predicate NoWriteSince(s: State, key: string, seen: nat) {
    forall i :: seen <= i < |s.writes| ==> s.writes[i].key != key
  }

  /** The step puts a value under the key that another write has overtaken. */
  predicate PutsOvertaken(s: State, step: Step, key: string) {
    PutsUnder(s, step, key) && !s.pcs[step.t].Missed? && !NoWriteSince(s, key, s.pcs[step.t].seen)
  }

  /** A write of the key is in the store and not yet in the cache. */
  predicate WriteUnderWay(s: State, key: string, t: nat) {
    t in s.pcs && s.pcs[t].Stored? && s.pcs[t].key == key
  }

  lemma {:induction false} SameWithoutWrites(start: map<string, Value>, writes: seq<Write>, seen: nat, key: string)
    requires seen <= |writes| && forall i :: seen <= i < |writes| ==> writes[i].key != key
    ensures ValueAfter(start, writes[..seen], key) == ValueAfter(start, writes, key)
  {
    if seen < |writes| {
      var front := writes[..|writes| - 1];
      SameWithoutWrites(start, front, seen, key);
      assert front[..seen] == writes[..seen];
    } else {
      assert writes[..seen] == writes;
    }
  }

  lemma UndisturbedPut(start: map<string, Value>, s: State, step: Step, key: string)
    requires Inv(start, s) && Enabled(s, step) && PutsUnder(s, step, key) && !PutsOvertaken(s, step, key)
    ensures CoherentAt(Next(s, step), key)
  {
    SameWithoutWrites(start, s.writes, s.pcs[step.t].seen, key);
  }

  /** Coherent, or the last write of the key is still under way to the cache. */
  ghost predicate Settling(s: State, key: string) {
    CoherentAt(s, key) || exists t :: WriteUnderWay(s, key, t) && NoWriteSince(s, key, s.pcs[t].seen)
  }

  lemma SettlingStep(start: map<string, Value>, s: State, step: Step, key: string)
    requires Inv(start, s) && Enabled(s, step) && Settling(s, key) && !PutsOvertaken(s, step, key)
    ensures Settling(Next(s, step), key)
  {
    var s' := Next(s, step);
    if PutsUnder(s, step, key) {
      UndisturbedPut(start, s, step, key);
    } else if WritesUnder(step, key) {
      assert WriteUnderWay(s', key, step.t) && NoWriteSince(s', key, s'.pcs[step.t].seen);
    } else if !CoherentAt(s, key) {
      var t :| WriteUnderWay(s, key, t) && NoWriteSince(s, key, s.pcs[t].seen);
      assert WriteUnderWay(s', key, t) && NoWriteSince(s', key, s'.pcs[t].seen);
    }
  }

  /**
    In an interleaving in which no put under the key is overtaken by a write, the key is coherent
    whenever no write of it is under way, whoever else reads and writes meanwhile.
   */
  lemma {:induction false} CoherentUnlessOvertaken(states: seq<State>, steps: seq<Step>, n: nat, key: string)
    requires IsHistory(states, steps) && n < |states|
    requires forall i :: 0 <= i < n ==> !PutsOvertaken(states[i], steps[i], key)
    ensures Settling(states[n], key)
    ensures (forall t :: !WriteUnderWay(states[n], key, t)) ==> CoherentAt(states[n], key)
  {
    if n > 0 {
      CoherentUnlessOvertaken(states, steps, n - 1, key);
      RunKeepsInv(states, steps, n - 1);
      SettlingStep(states[0].store, states[n - 1], steps[n - 1], key);
    }
  }

  /** And a put that is overtaken leaves the key stale exactly when the write that did it changed the value. */
  lemma OvertakenIsStaleIff(states: seq<State>, steps: seq<Step>, n: nat, key: string)
    requires IsHistory(states, steps) && n < |steps| && PutsOvertaken(states[n], steps[n], key)
    ensures !CoherentAt(states[n + 1], key)
       <==> ValueAfter(states[0].store, states[n].writes, key) != Some(states[n].pcs[steps[n].t].val)
  {
    RunKeepsInv(states, steps, n);
  }

  // ---- Two runs that go wrong ----

  const Empty := State(map[], map[], [], map[])

  function Cached(val: Value): M.Data {
    map["k" := M.Item(val, None)]
  }

  /** Everyone has returned, the store has 2, and a read gives 1. */
  predicate Stale(s: State) {
    s.pcs == map[] && "k" in s.store && s.store["k"] == 2
    && C.GetV3(C.Sys(s.data, s.store), "k", 0, 0, true).1 == C.Found(1)
  }

  /** Two writes overlap: the store keeps the second, the cache the first, and everyone has returned. */
  lemma OverlappingWritesLeaveStaleValue() returns (states: seq<State>, steps: seq<Step>)
    ensures IsHistory(states, steps) && states[0] == Empty && Stale(states[|steps|])
  {
    var a, b := Write("k", 1), Write("k", 2);
    var s1 := State(map[], map["k" := 1], [a], map[0 := Stored("k", 1, 1)]);
    var s2 := State(map[], map["k" := 2], [a, b], map[0 := Stored("k", 1, 1), 1 := Stored("k", 2, 2)]);
    var s3 := s2.(data := Cached(2), pcs := map[0 := Stored("k", 1, 1)]);
    var s4 := s3.(data := Cached(1), pcs := map[]);
    states := [Empty, s1, s2, s3, s4];
    steps := [StoreWrite(0, "k", 1), StoreWrite(1, "k", 2), CacheSet(1, 0, 0), CacheSet(0, 0, 0)];
    assert Next(Empty, steps[0]) == s1;
    assert Next(s1, steps[1]) == s2;
    assert Next(s2, steps[2]) == s3;
    assert Next(s3, steps[3]) == s4;
    assert IsHistory(states, steps) && states[4] == s4;
  }

  /** A read loads, a write stores and caches, and the read then fills in what it had loaded. */
  lemma SlowReadLeavesStaleValue() returns (states: seq<State>, steps: seq<Step>)
    ensures IsHistory(states, steps) && states[0] == Empty.(store := map["k" := 1]) && Stale(states[|steps|])
  {
    var s0, b := Empty.(store := map["k" := 1]), Write("k", 2);
    var s1 := s0.(pcs := map[0 := Missed("k")]);
    var s2 := s0.(pcs := map[0 := Loaded("k", 1, 0)]);
    var s3 := State(map[], map["k" := 2], [b], map[0 := Loaded("k", 1, 0), 1 := Stored("k", 2, 1)]);
    var s4 := s3.(data := Cached(2), pcs := map[0 := Loaded("k", 1, 0)]);
    var s5 := s4.(data := Cached(1), pcs := map[]);
    states := [s0, s1, s2, s3, s4, s5];
    steps := [Lookup(0, "k", 0), Load(0), StoreWrite(1, "k", 2), CacheSet(1, 0, 0), Fill(0, 0, 0)];
    assert Next(s0, steps[0]) == s1;
    assert Next(s1, steps[1]) == s2;
    assert Next(s2, steps[2]) == s3;
    assert Next(s3, steps[3]) == s4;
    assert Next(s4, steps[4]) == s5;
    assert IsHistory(states, steps) && states[5] == s5;
  }
}
