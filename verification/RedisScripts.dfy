/**
  The server half of the lock: what SETNX and the three Lua scripts do to the key space.
  Time is counted in whole seconds.  A key holds a token and a deadline; it is gone for every
  command from its deadline on, whether or not the server has already reclaimed it.
 */
module RedisScripts {

  /** A client's uuid. */
  type Token = nat

  datatype Deadline = Never | At(time: nat) {
    /** Not yet over at `now`. */
    predicate Live(now: nat) {
      Never? || now < time
    }

    /** This deadline is no earlier than `other`. */
    predicate Covers(other: Deadline) {
      Never? || (At? && other.At? && other.time <= time)
    }
  }

  datatype Entry = Entry(token: Token, deadline: Deadline)

  type Keys = map<string, Entry>

  /** What the client library hands back: 'OK', '' (refused), an integer, or a server error. */
  datatype Reply = Granted | Refused | Number(n: nat) | ServerError

  /** GET finds nothing. */
  predicate Free(keys: Keys, now: nat, key: string) {
    !(key in keys && keys[key].deadline.Live(now))
  }

  /** GET finds this token. */
  predicate HeldBy(keys: Keys, now: nat, key: string, token: Token) {
    key in keys && keys[key].deadline.Live(now) && keys[key].token == token
  }

  /** SETNX with an expiration of 0 stores the key without a deadline. */
  function SetNX(keys: Keys, now: nat, key: string, token: Token, expiration: nat): (Keys, Reply) {
    if Free(keys, now, key) then
      (keys[key := Entry(token, LeaseFrom(now, expiration))], Granted)
    else
      (keys, Refused)
  }

  /** The lease a command that ran at `start` gives; 0 means no limit (SETNX only). */
  function LeaseFrom(start: nat, expiration: nat): Deadline {
    if expiration == 0 then Never else At(start + expiration)
  }

  /** EXPIRE on a key that is there: 0 removes it at once. */
  function Expire(keys: Keys, now: nat, key: string, expiration: nat): Keys
    requires key in keys
  {
    if expiration == 0 then keys - {key} else keys[key := keys[key].(deadline := At(now + expiration))]
  }

  /** lock.lua; SET with EX 0 is refused by the server as an error. */
  function LockScript(keys: Keys, now: nat, key: string, token: Token, expiration: nat): (Keys, Reply) {
    if Free(keys, now, key) then
      if expiration == 0 then (keys, ServerError)
      else (keys[key := Entry(token, At(now + expiration))], Granted)
    else if keys[key].token == token then
      (Expire(keys, now, key, expiration), Granted)
    else
      (keys, Refused)
  }

  /** unlock.lua */
  function UnlockScript(keys: Keys, now: nat, key: string, token: Token): (Keys, Reply) {
    if HeldBy(keys, now, key, token) then (keys - {key}, Number(1)) else (keys, Number(0))
  }

  /** refresh.lua */
  function RefreshScript(keys: Keys, now: nat, key: string, token: Token, expiration: nat): (Keys, Reply) {
    if HeldBy(keys, now, key, token) then (Expire(keys, now, key, expiration), Number(1)) else (keys, Number(0))
  }

  /** The key space of one server, changed in place by one command at a time. */
  class Server {
    var now: nat
    var keys: Keys

    constructor ()
      ensures now == 0 && keys == map[]
    {
      now := 0;
      keys := map[];
    }

    /** GET: an expired key reads as absent. */
    method Get(key: string) returns (found: bool, token: Token)
      ensures found == !Free(keys, now, key)
      ensures found ==> HeldBy(keys, now, key, token)
    {
      found, token := false, 0;
      if key in keys {
        var entry := keys[key];
        if entry.deadline.Never? || now < entry.deadline.time {
          found, token := true, entry.token;
        }
      }
    }

    method RunSetNX(key: string, token: Token, expiration: nat) returns (reply: Reply)
      modifies this`keys
      ensures (keys, reply) == SetNX(old(keys), now, key, token, expiration)
    {
      var found, _ := Get(key);
      if found {
        return Refused;
      }
      var deadline := Never;
      if expiration > 0 {
        deadline := At(now + expiration);
      }
      keys := keys[key := Entry(token, deadline)];
      reply := Granted;
    }

    method RunLock(key: string, token: Token, expiration: nat) returns (reply: Reply)
      modifies this`keys
      ensures (keys, reply) == LockScript(old(keys), now, key, token, expiration)
    {
      var found, val := Get(key);
      if !found {
        if expiration == 0 {
          return ServerError;
        }
        keys := keys[key := Entry(token, At(now + expiration))];
        reply := Granted;
      } else if val == token {
        RunExpire(key, expiration);
        reply := Granted;
      } else {
        reply := Refused;
      }
    }

    method RunUnlock(key: string, token: Token) returns (reply: Reply)
      modifies this`keys
      ensures (keys, reply) == UnlockScript(old(keys), now, key, token)
    {
      var found, val := Get(key);
      if found && val == token {
        keys := keys - {key};
        reply := Number(1);
      } else {
        reply := Number(0);
      }
    }

    method RunRefresh(key: string, token: Token, expiration: nat) returns (reply: Reply)
      modifies this`keys
      ensures (keys, reply) == RefreshScript(old(keys), now, key, token, expiration)
    {
      var found, val := Get(key);
      if found && val == token {
        RunExpire(key, expiration);
        reply := Number(1);
      } else {
        reply := Number(0);
      }
    }

    method RunExpire(key: string, expiration: nat)
      requires key in keys
      modifies this`keys
      ensures keys == Expire(old(keys), now, key, expiration)
    {
      if expiration == 0 {
        keys := keys - {key};
      } else {
        keys := keys[key := Entry(keys[key].token, At(now + expiration))];
      }
    }
  }

  /** The key space after the lock script has run with one token at each of `times` in turn. */
  function LockAt(keys: Keys, times: seq<nat>, key: string, token: Token, expiration: nat): Keys
    decreases |times|
  {
    if times == [] then keys
    else LockAt(LockScript(keys, times[0], key, token, expiration).0, times[1..], key, token, expiration)
  }

  ghost predicate Ordered(times: seq<nat>) {
    forall i, j :: 0 <= i < j < |times| ==> times[i] <= times[j]
  }

  /**
    Running the lock script again with the same token, however often and whether or not an earlier
    reply was lost, leaves the one entry a single run at the last of those times would leave.
   */
  lemma {:induction false} RepeatedLockIsOneLock(keys: Keys, times: seq<nat>, key: string, token: Token, expiration: nat)
    requires times != [] && Ordered(times) && expiration > 0
    requires Free(keys, times[0], key) || HeldBy(keys, times[0], key, token)
    ensures LockAt(keys, times, key, token, expiration)
         == keys[key := Entry(token, At(times[|times| - 1] + expiration))]
    decreases |times|
  {
    var next := LockScript(keys, times[0], key, token, expiration).0;
    assert next == keys[key := Entry(token, At(times[0] + expiration))];
    var rest := times[1..];
    if rest != [] {
      assert times[0] <= rest[0];
      RepeatedLockIsOneLock(next, rest, key, token, expiration);
    }
  }

  /**
    A refresh that reports success keeps the key exactly when the expiration it was sent is positive.
    TryLock's handle carries 0, so its "successful" refresh releases the lock.
   */
  lemma RefreshKeepsLockIff(keys: Keys, now: nat, key: string, token: Token, expiration: nat)
    requires HeldBy(keys, now, key, token)
    ensures var (after, reply) := RefreshScript(keys, now, key, token, expiration);
            reply == Number(1) && (HeldBy(after, now, key, token) <==> expiration > 0)
  {
  }

  // ---- What a later GET sees, second by second ----

  /** A key is there from when it was stored until its deadline, that second excluded. */
  predicate SeenAt(keys: Keys, t: nat, key: string, token: Token) {
    key in keys && keys[key].token == token
    && match keys[key].deadline
       case Never => true
       case At(time) => t < time
  }

  ghost predicate NobodyAt(keys: Keys, t: nat, key: string) {
    forall token :: !SeenAt(keys, t, key, token)
  }

  /** SETNX: refused while anyone is seen; otherwise its token is seen for the expiration, for ever if that is 0. */
  lemma SetNXLasts(keys: Keys, now: nat, key: string, token: Token, expiration: nat, t: nat)
    ensures var (after, reply) := SetNX(keys, now, key, token, expiration);
            if NobodyAt(keys, now, key) then
              reply == Granted && (SeenAt(after, t, key, token) <==> expiration == 0 || t < now + expiration)
              && forall other, u :: other != key ==> (SeenAt(after, t, other, u) <==> SeenAt(keys, t, other, u))
            else reply == Refused && after == keys
  {
    assert key in keys ==> (SeenAt(keys, now, key, keys[key].token) <==> keys[key].deadline.Live(now));
  }

  /** The lock script: refused while another token is seen; on a free or own key seen for the expiration from now. */
  lemma LockLasts(keys: Keys, now: nat, key: string, token: Token, expiration: nat, t: nat)
    ensures var (after, reply) := LockScript(keys, now, key, token, expiration);
            if SeenAt(keys, now, key, token) then
              reply == Granted && (SeenAt(after, t, key, token) <==> expiration > 0 && t < now + expiration)
            else if !NobodyAt(keys, now, key) then reply == Refused && after == keys
            else if expiration == 0 then reply == ServerError && after == keys
            else reply == Granted && (SeenAt(after, t, key, token) <==> t < now + expiration)
    ensures forall other, u :: other != key ==>
              (SeenAt(LockScript(keys, now, key, token, expiration).0, t, other, u) <==> SeenAt(keys, t, other, u))
  {
    assert key in keys ==> (SeenAt(keys, now, key, keys[key].token) <==> keys[key].deadline.Live(now));
  }

  /** Unlock and refresh answer 1 exactly when their token is seen; the one removes it, the other extends it from now. */
  lemma UnlockAndRefreshLast(keys: Keys, now: nat, key: string, token: Token, expiration: nat, t: nat)
    ensures var (after, reply) := UnlockScript(keys, now, key, token);
            if SeenAt(keys, now, key, token) then reply == Number(1) && NobodyAt(after, t, key)
            else reply == Number(0) && after == keys
    ensures var (after, reply) := RefreshScript(keys, now, key, token, expiration);
            if SeenAt(keys, now, key, token) then
              reply == Number(1) && (SeenAt(after, t, key, token) <==> expiration > 0 && t < now + expiration)
            else reply == Number(0) && after == keys
  {
  }
}
