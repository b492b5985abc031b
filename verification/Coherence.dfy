/** Read-through, filtered read-through and write-through over one map cache and one backing store. */
module Coherence {
  import opened Wrappers
  import opened MapCache

  /** The clock is a parameter of each operation. */
  datatype Sys = Sys(data: Data, store: map<string, Value>)

  datatype Read = Found(val: Value) | NoValue | LoadFailed

  /** The load function: it fails on a key the store lacks, and may fail on any. */
  function Load(store: map<string, Value>, key: string, loadOk: bool): Read {
    if loadOk && key in store then Found(store[key]) else LoadFailed
  }

  /** A cache hit, which removes the entry when it is expired and returns it all the same. */
  function Hit(s: Sys, key: string, now: nat): (Sys, Read)
    requires key in s.data
  {
    (s.(data := Purge(s.data, [key], now)), Found(s.data[key].val))
  }

  /** A cache miss, which loads and refreshes the cache. */
  function Miss(s: Sys, key: string, expiration: int, now: nat, loadOk: bool): (Sys, Read) {
    match Load(s.store, key, loadOk)
    case Found(v) => (s.(data := Store(s.data, key, v, expiration, now)), Found(v))
    case failed => (s, failed)
  }

  function GetV3(s: Sys, key: string, expiration: int, now: nat, loadOk: bool): (Sys, Read) {
    if key in s.data then Hit(s, key, now) else Miss(s, key, expiration, now, loadOk)
  }

  function BloomGet(s: Sys, key: string, filter: set<string>, expiration: int, now: nat, loadOk: bool): (Sys, Read) {
    if key in s.data then Hit(s, key, now)
    else if key in filter then Miss(s, key, expiration, now, loadOk)
    else (s, NoValue)
  }

  /** A store write that fails writes nothing. */
  function WriteStore(store: map<string, Value>, key: string, val: Value, storeOk: bool): map<string, Value> {
    if storeOk then store[key := val] else store
  }

  function SetThrough(s: Sys, key: string, val: Value, expiration: int, now: nat, storeOk: bool): Sys {
    if storeOk then Sys(Store(s.data, key, val, expiration, now), WriteStore(s.store, key, val, storeOk)) else s
  }

  function SetV1(s: Sys, key: string, val: Value, expiration: int, now: nat, storeOk: bool): Sys {
    Sys(Store(s.data, key, val, expiration, now), WriteStore(s.store, key, val, storeOk))
  }

  function Polled(s: Sys, order: seq<string>, t: nat): Sys {
    s.(data := Purge(s.data, Looked(order), t))
  }

  ghost predicate Coherent(s: Sys) {
    forall k :: k in s.data ==> k in s.store && s.data[k].val == s.store[k]
  }

  // ---- Every run ----

  datatype Op =
    | ReadV3(key: string, expiration: int, now: nat, loadOk: bool)
    | ReadBloom(key: string, filter: set<string>, expiration: int, now: nat, loadOk: bool)
    | Write(key: string, val: Value, expiration: int, now: nat, storeOk: bool)
    | PollCache(order: seq<string>, t: nat)

  /** The new state, and what a read returned. */
  function Apply(s: Sys, op: Op): (Sys, Read) {
    match op
    case ReadV3(k, e, now, ok) => GetV3(s, k, e, now, ok)
    case ReadBloom(k, f, e, now, ok) => BloomGet(s, k, f, e, now, ok)
    case Write(k, v, e, now, ok) => (SetThrough(s, k, v, e, now, ok), NoValue)
    case PollCache(order, t) => (Polled(s, order, t), NoValue)
  }

  ghost predicate IsRun(states: seq<Sys>, ops: seq<Op>) {
    |states| == |ops| + 1 && forall i :: 0 <= i < |ops| ==> states[i + 1] == Apply(states[i], ops[i]).0
  }

  lemma ApplyKeepsCoherence(s: Sys, op: Op)
    requires Coherent(s)
    ensures Coherent(Apply(s, op).0)
  {
  }

  lemma {:induction false} RunKeepsCoherence(states: seq<Sys>, ops: seq<Op>, n: nat)
    requires IsRun(states, ops) && n < |states| && Coherent(states[0])
    ensures Coherent(states[n])
  {
    if n > 0 {
      RunKeepsCoherence(states, ops, n - 1);
      ApplyKeepsCoherence(states[n - 1], ops[n - 1]);
    }
  }

  /** The value a key has after the writes that succeeded: no cache in sight. */
  function LastWritten(store: map<string, Value>, ops: seq<Op>, key: string): Option<Value> {
    if ops == [] then if key in store then Some(store[key]) else None
    else
      var last := ops[|ops| - 1];
      if last.Write? && last.storeOk && last.key == key then Some(last.val)
      else LastWritten(store, ops[..|ops| - 1], key)
  }

  lemma {:induction false} StoreHasLastWrite(states: seq<Sys>, ops: seq<Op>, n: nat, key: string)
    requires IsRun(states, ops) && n < |states|
    ensures LastWritten(states[0].store, ops[..n], key)
            == if key in states[n].store then Some(states[n].store[key]) else None
  {
    if n > 0 {
      StoreHasLastWrite(states, ops, n - 1, key);
      assert ops[..n][..n - 1] == ops[..n - 1];
      assert ops[..n][n - 1] == ops[n - 1];
    }
  }

  predicate IsRead(op: Op) {
    op.ReadV3? || op.ReadBloom?
  }

  /**
   * In every run, a read that returns a value returns what was last written to its key, also
   * when it comes out of the cache after its deadline.
   */
  lemma ReadIsLastWrite(states: seq<Sys>, ops: seq<Op>, n: nat)
    requires IsRun(states, ops) && n < |ops| && Coherent(states[0]) && IsRead(ops[n])
    ensures var r := Apply(states[n], ops[n]).1;
            r.Found? ==> LastWritten(states[0].store, ops[..n], ops[n].key) == Some(r.val)
  {
    RunKeepsCoherence(states, ops, n);
    StoreHasLastWrite(states, ops, n, ops[n].key);
  }

  /** And a read whose load would succeed never fails on a key that was written. */
  lemma ReadFailsIff(states: seq<Sys>, ops: seq<Op>, n: nat)
    requires IsRun(states, ops) && n < |ops| && Coherent(states[0]) && ops[n].ReadV3? && ops[n].loadOk
    ensures !Apply(states[n], ops[n]).1.Found? <==> LastWritten(states[0].store, ops[..n], ops[n].key).None?
  {
    RunKeepsCoherence(states, ops, n);
    StoreHasLastWrite(states, ops, n, ops[n].key);
  }

  // ---- What a call leaves in the cache ----

  /** The key is served from the cache with this value, without any load, and until its expiration is over. */
  ghost predicate Serves(s: Sys, key: string, val: Value, expiration: int, now: nat) {
    && (forall e: int, t: nat :: GetV3(s, key, e, t, false).1 == Found(val))
    && (forall order, t: nat :: key in Looked(order) ==>
          (key !in Polled(s, order, t).data <==> expiration > 0 && now + expiration < t))
  }

  /** A read that had to load leaves its value in the cache; one that could not load changes nothing. */
  lemma ReadFillsCache(s: Sys, key: string, filter: set<string>, expiration: int, now: nat)
    requires key !in s.data
    ensures GetV3(s, key, expiration, now, false) == (s, LoadFailed)
    ensures key in s.store ==>
              var (after, r) := GetV3(s, key, expiration, now, true);
              r == Found(s.store[key]) && Serves(after, key, s.store[key], expiration, now) && after.store == s.store
    ensures key in s.store && key in filter ==>
              BloomGet(s, key, filter, expiration, now, true) == GetV3(s, key, expiration, now, true)
  {
  }

  /** A write that the store took leaves its value in both; one that it refused changes nothing. */
  lemma WriteFillsCache(s: Sys, key: string, val: Value, expiration: int, now: nat)
    ensures SetThrough(s, key, val, expiration, now, false) == s
    ensures var after := SetThrough(s, key, val, expiration, now, true);
            after.store == s.store[key := val] && Serves(after, key, val, expiration, now)
            && forall k :: k != key ==> (k in after.data <==> k in s.data) && (k in s.data ==> after.data[k] == s.data[k])
  {
  }

  // ---- The filter ----

  function Unfiltered(op: Op): Op {
    match op
    case ReadBloom(k, _, e, now, ok) => ReadV3(k, e, now, ok)
    case _ => op
  }

  /** Equal, up to which error it is. */
  predicate SameSuccess(a: Read, b: Read) {
    a == b || !(a.Found? || b.Found?)
  }

  /** One filtered read does what the plain read does exactly when the filter does not miss a key that would be loaded. */
  lemma FilterIsTransparentIff(s: Sys, key: string, filter: set<string>, expiration: int, now: nat, loadOk: bool)
    ensures var a, b := BloomGet(s, key, filter, expiration, now, loadOk), GetV3(s, key, expiration, now, loadOk);
            a.0 == b.0 && SameSuccess(a.1, b.1) <==> key in s.data || key in filter || key !in s.store || !loadOk
  {
  }

  /** Every filter used has no false negative at that moment. */
  ghost predicate FiltersComplete(states: seq<Sys>, ops: seq<Op>) {
    |states| == |ops| + 1 && forall i :: 0 <= i < |ops| && ops[i].ReadBloom? ==> states[i].store.Keys <= ops[i].filter
  }

  /** Taking every filter away from a run leaves the same states and the same successful reads. */
  lemma {:induction false} FiltersChangeNothing(states: seq<Sys>, plain: seq<Sys>, ops: seq<Op>, ops': seq<Op>, n: nat)
    requires IsRun(states, ops) && FiltersComplete(states, ops)
    requires |ops'| == |ops| && forall i :: 0 <= i < |ops| ==> ops'[i] == Unfiltered(ops[i])
    requires IsRun(plain, ops') && plain[0] == states[0]
    requires n < |states|
    ensures plain[n] == states[n]
    ensures n < |ops| ==> SameSuccess(Apply(states[n], ops[n]).1, Apply(plain[n], ops'[n]).1)
  {
    if n > 0 {
      FiltersChangeNothing(states, plain, ops, ops', n - 1);
      var op := ops[n - 1];
      if op.ReadBloom? {
        FilterIsTransparentIff(states[n - 1], op.key, op.filter, op.expiration, op.now, op.loadOk);
      }
    }
  }

  // ---- Writing the cache first ----

  /** `SetV1` keeps coherence exactly when the store takes the value or has it already. */
  lemma SetV1CoherentIff(s: Sys, key: string, val: Value, expiration: int, now: nat, storeOk: bool)
    requires Coherent(s)
    ensures Coherent(SetV1(s, key, val, expiration, now, storeOk))
            <==> storeOk || (key in s.store && s.store[key] == val)
  {
    var s' := SetV1(s, key, val, expiration, now, storeOk);
    assert key in s'.data && s'.data[key].val == val;
  }

  /** After it fails, a read returns a value that was never stored. */
  lemma SetV1ServesUnstoredValue()
    ensures exists s: Sys :: Coherent(s) && "k" in s.store && s.store["k"] == 1
                             && GetV3(SetV1(s, "k", 2, 0, 0, false), "k", 0, 0, true).1 == Found(2)
  {
    var s := Sys(map[], map["k" := 1]);
    assert GetV3(SetV1(s, "k", 2, 0, 0, false), "k", 0, 0, true).1 == Found(2);
  }

  // ---- The map cache underneath ----

  /** A hit, and a miss, is what the map cache's own Get makes of the same entries. */
  lemma GetIsHit(s: Sys, c: Cache, key: string, now: nat)
    requires c.data == s.data
    ensures var (after, found) := Get(c, key, now);
            if key in s.data then found.Some? && (s.(data := after.data), Found(found.value)) == Hit(s, key, now)
            else after == c && found == None
  {
    GetPurges(c, key, now);
  }

  /** A poll is the map cache's own, in any order of its entries. */
  lemma PollIsPurge(s: Sys, c: Cache, order: seq<string>, t: nat)
    requires c.data == s.data
    ensures Polled(s, order, t) == s.(data := Poll(c, order, t).data)
  {
    SweepPurges(c, Looked(order), t);
  }

  // ---- The code ----

  class ThroughCache {
    const cache: BuildInMapCache
    var store: map<string, Value>

    ghost function View(): Sys
      reads this, cache
    {
      Sys(cache.data, store)
    }

    constructor (cache: BuildInMapCache, store: map<string, Value>)
      ensures this.cache == cache && this.store == store
    {
      this.cache, this.store := cache, store;
    }

    /** `GetV3` */
    method ReadThrough(key: string, expiration: int, now: nat, loadOk: bool) returns (r: Read)
      modifies cache
      ensures (View(), r) == GetV3(old(View()), key, expiration, now, loadOk)
    {
      GetIsHit(View(), cache.View(), key, now);
      var cached := cache.GetItem(key, now);
      if cached.Some? {
        return Found(cached.value);
      }
      r := Load(store, key, loadOk);
      if r.Found? {
        cache.StoreItem(key, r.val, expiration, now);
      }
    }

    /** `BloomFilterCacheV1.Get` */
    method FilteredReadThrough(key: string, filter: set<string>, expiration: int, now: nat, loadOk: bool) returns (r: Read)
      modifies cache
      ensures (View(), r) == BloomGet(old(View()), key, filter, expiration, now, loadOk)
    {
      GetIsHit(View(), cache.View(), key, now);
      var cached := cache.GetItem(key, now);
      if cached.Some? {
        return Found(cached.value);
      }
      r := NoValue;
      if key in filter {
        r := Load(store, key, loadOk);
        if r.Found? {
          cache.StoreItem(key, r.val, expiration, now);
        }
      }
    }

    method StoreValue(key: string, val: Value, storeOk: bool) returns (ok: bool)
      modifies this`store
      ensures ok == storeOk && store == WriteStore(old(store), key, val, storeOk)
    {
      if storeOk {
        store := store[key := val];
      }
      ok := storeOk;
    }

    /** `WriteThroughCache.Set` */
    method WriteThrough(key: string, val: Value, expiration: int, now: nat, storeOk: bool) returns (ok: bool)
      modifies this, cache
      ensures ok == storeOk && View() == SetThrough(old(View()), key, val, expiration, now, storeOk)
    {
      ok := StoreValue(key, val, storeOk);
      if !ok {
        return;
      }
      cache.StoreItem(key, val, expiration, now);
    }

    /** `WriteThroughCache.SetV1` */
    method WriteCacheFirst(key: string, val: Value, expiration: int, now: nat, storeOk: bool) returns (ok: bool)
      modifies this, cache
      ensures ok == storeOk && View() == SetV1(old(View()), key, val, expiration, now, storeOk)
    {
      cache.StoreItem(key, val, expiration, now);
      ok := StoreValue(key, val, storeOk);
    }

    /** One tick of the map cache's poller. */
    method PollTick(order: seq<string>, t: nat)
      requires Enumerates(order, cache.data)
      modifies cache
      ensures View() == Polled(old(View()), order, t)
    {
      PollIsPurge(View(), cache.View(), order, t);
      cache.PollOnce(order, t);
    }
  }
}
