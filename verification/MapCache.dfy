/** The in-memory map cache with deadlines, and the decorator that caps how many entries it holds. */
module MapCache {
  import opened Wrappers

  type Value = int

  /** No deadline is Go's zero time. */
  datatype Item = Item(val: Value, deadline: Option<nat>) {
    predicate DeadlineBefore(t: nat) {
      deadline.Some? && deadline.value < t
    }
  }

  type Data = map<string, Item>

  const MAX_INT32: int := 0x7FFF_FFFF
  const POLL_LIMIT: nat := 1000

  /** Arithmetic on `int32` wraps around. */
  function Wrap32(n: int): int {
    (n + 0x8000_0000) % 0x1_0000_0000 - 0x8000_0000
  }

  /** `set`: an expiration that is not positive means no deadline. */
  function Store(data: Data, key: string, val: Value, expiration: int, now: nat): Data {
    data[key := Item(val, if expiration > 0 then Some(now + expiration) else None)]
  }

  datatype Eviction = Eviction(key: string, val: Value)

  /**
    The cache, the counter of its capacity decorator if it has one, and the history of fresh insertions
    and eviction callbacks.
   */
  datatype Cache = Cache(data: Data, capped: bool, cnt: int, maxCnt: int, inserted: nat, evicted: seq<Eviction>)

  /** `NewMaxCntCache` over an empty cache. */
  function Init(maxCnt: int): Cache {
    Cache(map[], true, 0, maxCnt, 0, [])
  }

  /** `delete`: the callback, which counts down when the decorator has wrapped it, then the entry goes. */
  function Evict(c: Cache, key: string): Cache {
    if key !in c.data then c
    else c.(data := c.data - {key}, cnt := if c.capped then Wrap32(c.cnt - 1) else c.cnt,
            evicted := c.evicted + [Eviction(key, c.data[key].val)])
  }

  /** `MaxCntCache.Set`; false is the capacity error. */
  function Set(c: Cache, key: string, val: Value, expiration: int, now: nat): (Cache, bool) {
    if key in c.data then (c.(data := Store(c.data, key, val, expiration, now)), true)
    else if Wrap32(c.cnt + 1) > c.maxCnt then (c, false)
    else (c.(cnt := Wrap32(c.cnt + 1), inserted := c.inserted + 1, data := Store(c.data, key, val, expiration, now)), true)
  }

  /** `Get`: an expired entry is removed, and its value returned all the same. */
  function Get(c: Cache, key: string, now: nat): (Cache, Option<Value>) {
    if key !in c.data then (c, None)
    else (if c.data[key].DeadlineBefore(now) then Evict(c, key) else c, Some(c.data[key].val))
  }

  /** One poll at time `t` over the keys in the order `range` gives them: at most 1001 are looked at. */
  function Poll(c: Cache, order: seq<string>, t: nat): Cache {
    Sweep(c, Looked(order), t)
  }

  function Sweep(c: Cache, keys: seq<string>, t: nat): Cache
    decreases |keys|
  {
    if keys == [] then c
    else
      var k := keys[0];
      Sweep(if k in c.data && c.data[k].DeadlineBefore(t) then Evict(c, k) else c, keys[1..], t)
  }

  // ---- Every run ----

  /** `Delete` of a key that is not there is no operation: it unlocks a mutex nobody holds and the program dies. */
  datatype Op =
    | DoSet(key: string, val: Value, expiration: int, now: nat)
    | DoGet(key: string, now: nat)
    | DoDelete(key: string)
    | DoPoll(order: seq<string>, t: nat)

  ghost predicate Enabled(c: Cache, op: Op) {
    match op
    case DoDelete(key) => key in c.data
    case DoPoll(order, _) => Enumerates(order, c.data)
    case _ => true
  }

  function Apply(c: Cache, op: Op): Cache {
    match op
    case DoSet(key, val, expiration, now) => Set(c, key, val, expiration, now).0
    case DoGet(key, now) => Get(c, key, now).0
    case DoDelete(key) => Evict(c, key)
    case DoPoll(order, t) => Poll(c, order, t)
  }

  ghost predicate IsRun(caches: seq<Cache>, ops: seq<Op>) {
    |caches| == |ops| + 1
    && forall i :: 0 <= i < |ops| ==> Enabled(caches[i], ops[i]) && caches[i + 1] == Apply(caches[i], ops[i])
  }

  /** The counter is the size, within the cap, and every insertion is still there or was called back. */
  ghost predicate Counted(c: Cache) {
    c.capped && c.cnt == |c.data| && 0 <= c.cnt <= c.maxCnt && c.inserted == |c.data| + |c.evicted|
  }

  lemma EvictKeepsCount(c: Cache, key: string)
    requires Counted(c) && c.maxCnt <= MAX_INT32
    ensures Counted(Evict(c, key)) && Evict(c, key).maxCnt == c.maxCnt
  {
    if key in c.data {
      var data := c.data - {key};
      assert data.Keys == c.data.Keys - {key};
      assert |data| == |c.data| - 1;
    }
  }

  lemma {:induction false} SweepKeepsCount(c: Cache, keys: seq<string>, t: nat)
    requires Counted(c) && c.maxCnt <= MAX_INT32
    ensures Counted(Sweep(c, keys, t)) && Sweep(c, keys, t).maxCnt == c.maxCnt
    decreases |keys|
  {
    if keys != [] {
      EvictKeepsCount(c, keys[0]);
      SweepKeepsCount(if keys[0] in c.data && c.data[keys[0]].DeadlineBefore(t) then Evict(c, keys[0]) else c, keys[1..], t);
    }
  }

  lemma StoreGrows(data: Data, key: string, val: Value, expiration: int, now: nat)
    ensures |Store(data, key, val, expiration, now)| == |data| + if key in data then 0 else 1
  {
    var after := Store(data, key, val, expiration, now);
    assert after.Keys == data.Keys + {key};
    assert key in data ==> after.Keys == data.Keys;
  }

  /** A Set keeps the count exactly when the counter is not at the largest `int32`, where adding one wraps. */
  lemma SetKeepsCountIff(c: Cache, key: string, val: Value, expiration: int, now: nat)
    requires Counted(c) && c.maxCnt <= MAX_INT32 && key !in c.data
    ensures Counted(Set(c, key, val, expiration, now).0) <==> c.cnt != MAX_INT32
    ensures Set(c, key, val, expiration, now).1 <==> c.cnt < c.maxCnt || c.cnt == MAX_INT32
  {
    StoreGrows(c.data, key, val, expiration, now);
  }

  lemma ApplyKeepsCount(c: Cache, op: Op)
    requires Counted(c) && c.maxCnt < MAX_INT32
    ensures Counted(Apply(c, op)) && Apply(c, op).maxCnt == c.maxCnt
  {
    match op {
      case DoSet(key, val, expiration, now) => StoreGrows(c.data, key, val, expiration, now);
      case DoGet(key, now) => EvictKeepsCount(c, key);
      case DoDelete(key) => EvictKeepsCount(c, key);
      case DoPoll(order, t) =>
        SweepKeepsCount(c, Looked(order), t);
    }
  }

  /** In every run over an initially empty map the counter is right and the cap is kept. */
  lemma {:induction false} RunKeepsCount(caches: seq<Cache>, ops: seq<Op>, n: nat)
    requires IsRun(caches, ops) && n < |caches| && 0 <= caches[0].maxCnt < MAX_INT32 && caches[0] == Init(caches[0].maxCnt)
    ensures Counted(caches[n]) && caches[n].maxCnt == caches[0].maxCnt
  {
    if n > 0 {
      RunKeepsCount(caches, ops, n - 1);
      ApplyKeepsCount(caches[n - 1], ops[n - 1]);
    }
  }

  // ---- Polling ----

  /** What is left when the expired ones of `keys` are gone. */
  function Purge(data: Data, keys: seq<string>, t: nat): Data {
    map k | k in data && !(k in keys && data[k].DeadlineBefore(t)) :: data[k]
  }

  lemma GetPurges(c: Cache, key: string, now: nat)
    ensures Get(c, key, now).0.data == Purge(c.data, [key], now)
  {
    assert key in [key];
    assert Purge(c.data, [key], now) == if key in c.data && c.data[key].DeadlineBefore(now) then c.data - {key} else c.data;
  }

  /** A sweep in any order leaves what a single purge of those keys leaves. */
  lemma {:induction false} SweepPurges(c: Cache, keys: seq<string>, t: nat)
    ensures Sweep(c, keys, t).data == Purge(c.data, keys, t)
    decreases |keys|
  {
    if keys == [] {
      assert Purge(c.data, keys, t) == c.data;
    } else {
      var c' := if keys[0] in c.data && c.data[keys[0]].DeadlineBefore(t) then Evict(c, keys[0]) else c;
      SweepPurges(c', keys[1..], t);
      assert keys == [keys[0]] + keys[1..];
      assert Purge(c'.data, keys[1..], t) == Purge(c.data, keys, t);
    }
  }

  /** The keys one poll looks at. */
  function Looked(order: seq<string>): seq<string> {
    if |order| > POLL_LIMIT + 1 then order[..POLL_LIMIT + 1] else order
  }

  /** A poll removes only expired entries, whatever the order, and all of them when there are at most 1001 entries. */
  lemma PollRemovesExpired(c: Cache, order: seq<string>, t: nat)
    requires Enumerates(order, c.data)
    ensures forall k :: k in c.data && (c.data[k].deadline == None || t <= c.data[k].deadline.value)
                        ==> k in Poll(c, order, t).data && Poll(c, order, t).data[k] == c.data[k]
    ensures forall k :: k in Poll(c, order, t).data ==> k in c.data
    ensures |c.data| <= 1001 ==>
              forall k :: k in Poll(c, order, t).data ==> c.data[k].deadline == None || t <= c.data[k].deadline.value
    ensures forall i :: 0 <= i < |order| && i < 1001 ==>
              (order[i] in Poll(c, order, t).data
               <==> c.data[order[i]].deadline == None || t <= c.data[order[i]].deadline.value)
  {
    SweepPurges(c, Looked(order), t);
    OrderLength(order, c.data);
    assert forall i :: 0 <= i < |order| && i < 1001 ==> Looked(order)[i] == order[i];
  }

  // ---- From a Set to the end of its entry ----

  /** After a Set, a Get gives the new value, whatever was there before, and no other key has changed. */
  lemma GetAfterSet(c: Cache, key: string, val: Value, expiration: int, now: nat, t: nat)
    requires Set(c, key, val, expiration, now).1
    ensures var after := Set(c, key, val, expiration, now).0; var (later, found) := Get(after, key, t);
            && found == Some(val)
            && (key in later.data <==> !(expiration > 0 && now + expiration < t))
            && forall k :: k != key ==> (k in after.data <==> k in c.data) && (k in c.data ==> after.data[k] == c.data[k])
  {
  }

  /** A Set that is refused changes nothing, and only a fresh key at capacity is refused. */
  lemma SetRefusedIff(c: Cache, key: string, val: Value, expiration: int, now: nat)
    requires Counted(c) && c.maxCnt < MAX_INT32
    ensures !Set(c, key, val, expiration, now).1 <==> key !in c.data && |c.data| == c.maxCnt
    ensures !Set(c, key, val, expiration, now).1 ==> Set(c, key, val, expiration, now).0 == c
  {
  }

  /** A poll that looks at the key removes what a Set put there if and only if its expiration is over. */
  lemma PollAfterSet(c: Cache, key: string, val: Value, expiration: int, now: nat, order: seq<string>, i: nat, t: nat)
    requires Set(c, key, val, expiration, now).1 && Enumerates(order, Set(c, key, val, expiration, now).0.data)
    requires i < |order| && i < 1001 && order[i] == key
    ensures key !in Poll(Set(c, key, val, expiration, now).0, order, t).data <==> expiration > 0 && now + expiration < t
  {
    PollRemovesExpired(Set(c, key, val, expiration, now).0, order, t);
  }

  /** Every entry a sweep removes is called back with its value, and nothing else is. */
  ghost predicate CallsBack(c: Cache, after: Cache) {
    && c.evicted <= after.evicted
    && (forall i :: |c.evicted| <= i < |after.evicted| ==>
          var e := after.evicted[i]; e.key in c.data && e.key !in after.data && e.val == c.data[e.key].val)
    && (forall k :: k in c.data && k !in after.data ==> Eviction(k, c.data[k].val) in after.evicted[|c.evicted|..])
  }

  lemma {:induction false} SweepCallsBack(c: Cache, keys: seq<string>, t: nat)
    ensures CallsBack(c, Sweep(c, keys, t))
    decreases |keys|
  {
    if keys != [] {
      var c' := if keys[0] in c.data && c.data[keys[0]].DeadlineBefore(t) then Evict(c, keys[0]) else c;
      SweepCallsBack(c', keys[1..], t);
      SweepPurges(c', keys[1..], t);
      var after := Sweep(c', keys[1..], t);
      CallsBackFirst(c, c', keys[0], after);
    }
  }

  lemma CallsBackFirst(c: Cache, c': Cache, key: string, after: Cache)
    requires (c' == c || (key in c.data && c' == Evict(c, key))) && CallsBack(c', after)
    requires forall k :: k in after.data ==> k in c'.data
    ensures CallsBack(c, after)
  {
    if c' != c {
      var e := Eviction(key, c.data[key].val);
      assert after.evicted[|c.evicted|] == c'.evicted[|c.evicted|] == e;
      assert after.evicted[|c.evicted|..] == [e] + after.evicted[|c'.evicted|..];
    }
  }

  lemma OrderLength(order: seq<string>, data: Data)
    requires Enumerates(order, data)
    ensures |order| == |data|
  {
    SetOfDistinct(order);
    assert (set k | k in order) == data.Keys;
  }

  lemma {:induction false} SetOfDistinct(order: seq<string>)
    requires Distinct(order)
    ensures |set k | k in order| == |order|
  {
    if order != [] {
      var rest := order[1..];
      SetOfDistinct(rest);
      assert (set k | k in order) == (set k | k in rest) + {order[0]};
    }
  }

  // ---- The code ----

  /** The map cache; a capacity decorator wraps its callback and shares its map and mutex. */
  class BuildInMapCache {
    var data: Data
    const capped: bool
    var cnt: int
    const maxCnt: int
    /** The calls the eviction callback has seen. */
    var evicted: seq<Eviction>
    ghost var inserted: nat

    ghost function View(): Cache
      reads this
    {
      Cache(data, capped, cnt, maxCnt, inserted, evicted)
    }

    constructor ()
      ensures data == map[] && !capped && evicted == []
    {
      data, capped, cnt, maxCnt, evicted, inserted := map[], false, 0, 0, [], 0;
    }

    /** `NewMaxCntCache` */
    constructor Capped(max: int)
      ensures View() == Init(max)
    {
      data, capped, cnt, maxCnt, evicted, inserted := map[], true, 0, max, [], 0;
    }

    method OnEvicted(key: string, val: Value)
      modifies this`cnt, this`evicted
      ensures cnt == (if capped then Wrap32(old(cnt) - 1) else old(cnt)) && evicted == old(evicted) + [Eviction(key, val)]
    {
      if capped {
        cnt := Wrap32(cnt - 1);
      }
      evicted := evicted + [Eviction(key, val)];
    }

    method EvictKey(key: string)
      modifies this
      ensures View() == Evict(old(View()), key)
    {
      if key !in data {
        return;
      }
      OnEvicted(key, data[key].val);
      data := data - {key};
    }

    /** `set` */
    method StoreItem(key: string, val: Value, expiration: int, now: nat)
      modifies this`data
      ensures data == Store(old(data), key, val, expiration, now)
    {
      var dl := None;
      if expiration > 0 {
        dl := Some(now + expiration);
      }
      data := data[key := Item(val, dl)];
    }

    /** `MaxCntCache.Set` */
    method SetItem(key: string, val: Value, expiration: int, now: nat) returns (ok: bool)
      modifies this
      ensures (View(), ok) == Set(old(View()), key, val, expiration, now)
    {
      if key !in data {
        if Wrap32(cnt + 1) > maxCnt {
          return false;
        }
        cnt := Wrap32(cnt + 1);
        inserted := inserted + 1;
      }
      StoreItem(key, val, expiration, now);
      ok := true;
    }

    method GetItem(key: string, now: nat) returns (found: Option<Value>)
      modifies this
      ensures (View(), found) == Get(old(View()), key, now)
    {
      if key !in data {
        return None;
      }
      var val := data[key];
      if val.DeadlineBefore(now) {
        EvictKey(key);
      }
      found := Some(val.val);
    }

    /** One tick of the poller; `order` is how `range` visits the map. */
    method PollOnce(order: seq<string>, t: nat)
      requires Enumerates(order, data)
      modifies this
      ensures View() == Poll(old(View()), order, t)
    {
      var i := 0;
      ghost var keys := Looked(order);
      assert keys[0..] == keys;
      while i < |order|
        invariant i <= |keys|
        invariant Sweep(old(View()), keys, t) == Sweep(View(), keys[i..], t)
      {
        if i > POLL_LIMIT {
          break;
        }
        var k := order[i];
        assert keys[i..][0] == k && keys[i..][1..] == keys[i + 1..];
        if k in data && data[k].DeadlineBefore(t) {
          EvictKey(k);
        }
        i := i + 1;
      }
      assert keys[i..] == [];
    }
  }
}
