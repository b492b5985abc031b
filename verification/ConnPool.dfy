/**
  The pool's fields as `NewPool`, `Get` and `Put` change them.  Each method is one uninterrupted section of
  that code; it does to the fields what its step does to the protocol state.
 */
module ConnPool {
  import opened PoolProtocol

  class Pool {
    const config: Config
    var cnt: nat
    var connReq: seq<Tid>                // the queue of waiting requests, named by their Get
    var idleConn: seq<IdleConn>          // the buffered channel of idle connections
    var slots: map<Tid, Conn>            // the one-slot channels that hold a connection
    var locked: bool                     // the mutex, left locked for good
    var closed: set<Conn>
    var made: nat                        // calls of the factory that succeeded
    ghost var s: State

    ghost predicate Valid()
      reads this
    {
      && s.config == config && s.cnt == cnt && s.waiters == connReq && s.idle == idleConn
      && s.slots == slots && s.leaked == locked && s.closed == closed && s.created == made
      && Inv(s)
    }

    /** `NewPool`: the factory is called `initCnt` times and each connection sent to the idle channel. */
    constructor (maxCnt: nat, maxIdleCnt: nat, initCnt: nat, expiration: nat, now: nat)
      requires initCnt <= maxIdleCnt
      ensures Valid()
      ensures config == Config(maxCnt, maxIdleCnt, initCnt, expiration) && s == Init(config, now)
    {
      config := Config(maxCnt, maxIdleCnt, initCnt, expiration);
      cnt, connReq, slots, locked, closed := 0, [], map[], false, {};
      var idle: seq<IdleConn> := [];
      var i := 0;
      while i < initCnt
        invariant i <= initCnt && |idle| == i
        invariant forall k :: 0 <= k < i ==> idle[k] == IdleConn(k, now)
      {
        idle := idle + [IdleConn(i, now)];
        i := i + 1;
      }
      idleConn, made := idle, i;
      s := Init(Config(maxCnt, maxIdleCnt, initCnt, expiration), now);
      InitInv(Config(maxCnt, maxIdleCnt, initCnt, expiration), now);
    }

    /** Get's first `select`: an idle connection, closed first if it sat there too long, or none. */
    method TryIdle(t: Tid, now: nat) returns (found: bool, conn: Conn)
      requires Valid() && At(s, t, Entered) && now == s.now
      modifies this
      ensures Valid()
      ensures found == (old(s).idle != [])
      ensures s == Apply(old(s), if found then TakeIdle(t) else FindNoIdle(t))
      ensures found ==> conn in s.held && s.held[conn] == t
      ensures found ==>
                var info := old(idleConn)[0];
                && conn == info.conn && idleConn == old(idleConn)[1..]
                && closed == old(closed) + (if info.backTime + config.expiration < now then {conn} else {})
      ensures !found ==> idleConn == old(idleConn) && closed == old(closed)
    {
      ghost var step := if idleConn == [] then FindNoIdle(t) else TakeIdle(t);
      StepKeepsInv(s, step);
      found, conn := false, 0;
      if idleConn != [] {
        var info := idleConn[0];
        idleConn := idleConn[1..];
        if info.backTime + config.expiration < now {
          closed := closed + {info.conn};
        }
        found, conn := true, info.conn;
      }
      s := Apply(s, step);
    }

    /** Get under the mutex: queue a request when the pool is full, otherwise make a connection. */
    method QueueOrMake(t: Tid) returns (queued: bool, conn: Conn)
      requires Valid() && At(s, t, NeedsLock) && !locked
      modifies this
      ensures Valid() && s == Apply(old(s), LockedGet(t))
      ensures queued == (old(cnt) >= config.maxCnt)
      ensures queued ==> connReq == old(connReq) + [t] && cnt == old(cnt)
      ensures !queued ==> s.held == old(s).held[conn := t] && conn == old(made) && cnt == old(cnt) + 1
    {
      StepKeepsInv(s, LockedGet(t));
      queued, conn := false, 0;
      if cnt >= config.maxCnt {
        connReq := connReq + [t];
        queued := true;
      } else {
        conn := made;
        made := made + 1;
        cnt := cnt + 1;
      }
      s := Apply(s, LockedGet(t));
    }

    /** The factory's error is returned with the mutex still locked. */
    method FailToMake(t: Tid)
      requires Valid() && At(s, t, NeedsLock) && !locked && cnt < config.maxCnt
      modifies this
      ensures Valid() && s == Apply(old(s), FactoryFails(t)) && locked
    {
      StepKeepsInv(s, FactoryFails(t));
      locked := true;
      s := Apply(s, FactoryFails(t));
    }

    /** Put under the mutex: to the first waiter, else to the idle channel, else closed. */
    method PutLocked(t: Tid, conn: Conn, now: nat) returns (to: seq<Tid>)
      requires Valid() && At(s, t, Putting(conn)) && !locked && now == s.now
      modifies this
      ensures Valid() && s == Apply(old(s), LockedPut(t))
      ensures to == if old(connReq) == [] then [] else [old(connReq)[0]]
      ensures to != [] ==> At(s, t, Sending(to[0], conn)) && to[0] !in slots
      ensures if old(connReq) != [] then connReq == old(connReq)[1..] && idleConn == old(idleConn) && closed == old(closed)
              else if |old(idleConn)| < config.maxIdleCnt then
                connReq == [] && idleConn == old(idleConn) + [IdleConn(conn, now)] && closed == old(closed)
              else connReq == [] && idleConn == old(idleConn) && closed == old(closed) + {conn}
    {
      StepKeepsInv(s, LockedPut(t));
      to := [];
      if connReq != [] {
        to := [connReq[0]];
        connReq := connReq[1..];
      } else if |idleConn| < config.maxIdleCnt {
        idleConn := idleConn + [IdleConn(conn, now)];
      } else {
        closed := closed + {conn};
      }
      s := Apply(s, LockedPut(t));
      assert to != [] ==> IsSender(s, t) && Sound(s, to[0]);
    }

    /** Put after the mutex: the send on the request's channel finds the slot empty. */
    method SendTo(t: Tid, to: Tid, conn: Conn)
      requires Valid() && At(s, t, Sending(to, conn))
      modifies this
      ensures Valid() && to !in old(slots) && slots == old(slots)[to := conn]
      ensures Enabled(old(s), Fill(t)) && s == Apply(old(s), Fill(t))
    {
      assert IsSender(s, t) && Sound(s, to);
      StepKeepsInv(s, Fill(t));
      slots := slots[to := conn];
      s := Apply(s, Fill(t));
    }

    /** Get's second `select`: the connection arrives, or the context ends and a goroutine is left to forward it. */
    method Await(t: Tid, cancelled: bool) returns (found: bool, conn: Conn)
      requires Valid() && At(s, t, Waiting) && (cancelled || t in slots)
      modifies this
      ensures Valid() && found == !cancelled
      ensures s == Apply(old(s), if cancelled then Cancel(t) else Receive(t))
      ensures found ==> s.held == old(s).held[conn := t] && slots == old(slots) - {t}
    {
      ghost var step := if cancelled then Cancel(t) else Receive(t);
      StepKeepsInv(s, step);
      found, conn := false, 0;
      if !cancelled {
        found, conn := true, slots[t];
        slots := slots - {t};
      }
      s := Apply(s, step);
    }

    /** The goroutine of a cancelled Get takes what arrives and goes on to put it back. */
    method TakeToForward(t: Tid) returns (conn: Conn)
      requires Valid() && At(s, t, Forwarding) && t in slots
      modifies this
      ensures Valid() && s == Apply(old(s), Forward(t)) && At(s, t, Putting(conn))
    {
      StepKeepsInv(s, Forward(t));
      conn := slots[t];
      slots := slots - {t};
      s := Apply(s, Forward(t));
    }
  }
}
