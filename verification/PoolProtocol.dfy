/**
  The connection pool as interleaved steps of its callers.  `cnt` and the waiter queue are only touched
  under the pool's mutex, so each critical section is one step; the idle channel and the one-slot
  hand-off channels are touched outside it and get steps of their own.
 */
module PoolProtocol {
  import opened Wrappers

  type Conn = nat

  /** One invocation of Get or Put; a Get's id also names its request and the goroutine it may leave behind. */
  type Tid = nat

  datatype IdleConn = IdleConn(conn: Conn, backTime: nat)

  datatype Pc =
    | Entered                            // Get has found its context alive
    | NeedsLock                          // ... and the idle channel empty
    | Waiting                            // Get's request is queued; it waits on its slot
    | Forwarding                         // Get was cancelled; a goroutine waits on the slot instead
    | Putting(conn: Conn)                // Put is about to take the mutex
    | Sending(to: Tid, conn: Conn)       // Put has taken a request off the queue, its slot not yet filled

  datatype Config = Config(maxCnt: nat, maxIdleCnt: nat, initCnt: nat, expiration: nat)

  datatype State = State(
    config: Config,
    now: nat,
    cnt: nat,
    idle: seq<IdleConn>,
    waiters: seq<Tid>,
    leaked: bool,                        // a failed factory call has left the mutex locked
    slots: map<Tid, Conn>,
    pcs: map<Tid, Pc>,
    held: map<Conn, Tid>,                // connections out with callers, and the Get that returned each
    dropped: set<Conn>,                  // closed by a Put that found the idle channel full
    closed: set<Conn>,
    created: nat,                        // connections are numbered in the order the factory made them
    used: set<Tid>,
    queued: seq<Tid>,                    // every request ever queued, in order
    served: seq<Tid>,                    // every request ever taken off the queue, in order
    filled: set<Tid>)                    // every request whose slot has been filled

  datatype Step =
    | CallGet(t: Tid)
    | TakeIdle(t: Tid)
    | FindNoIdle(t: Tid)
    | LockedGet(t: Tid)
    | FactoryFails(t: Tid)
    | Receive(t: Tid)
    | Cancel(t: Tid)
    | Forward(t: Tid)
    | CallPut(t: Tid, conn: Conn)
    | LockedPut(t: Tid)
    | Fill(t: Tid)
    | Tick

  function Init(config: Config, now: nat): State {
    State(config, now, 0, seq(config.initCnt, i requires 0 <= i => IdleConn(i, now)), [], false, map[], map[], map[], {}, {},
          config.initCnt, {}, [], [], {})
  }

  predicate At(s: State, t: Tid, pc: Pc) {
    t in s.pcs && s.pcs[t] == pc
  }

  predicate IsWaiter(s: State, t: Tid) {
    t in s.pcs && (s.pcs[t].Waiting? || s.pcs[t].Forwarding?)
  }

  predicate IsSender(s: State, t: Tid) {
    t in s.pcs && s.pcs[t].Sending?
  }

  predicate Expired(s: State, i: IdleConn) {
    i.backTime + s.config.expiration < s.now
  }

  predicate Enabled(s: State, step: Step) {
    match step
    case CallGet(t) => t !in s.used
    case TakeIdle(t) => At(s, t, Entered) && s.idle != []
    case FindNoIdle(t) => At(s, t, Entered) && s.idle == []
    case LockedGet(t) => At(s, t, NeedsLock) && !s.leaked
    case FactoryFails(t) => At(s, t, NeedsLock) && !s.leaked && s.cnt < s.config.maxCnt
    case Receive(t) => At(s, t, Waiting) && t in s.slots
    case Cancel(t) => At(s, t, Waiting)
    case Forward(t) => At(s, t, Forwarding) && t in s.slots
    case CallPut(t, c) => t !in s.used && c in s.held
    case LockedPut(t) => t in s.pcs && s.pcs[t].Putting? && !s.leaked
    case Fill(t) => IsSender(s, t) && s.pcs[t].to !in s.slots
    case Tick => true
  }

  function Return(s: State, t: Tid, c: Conn): State {
    s.(held := s.held[c := t], pcs := s.pcs - {t})
  }

  function Apply(s: State, step: Step): State
    requires Enabled(s, step)
  {
    match step
    case CallGet(t) => s.(used := s.used + {t}, pcs := s.pcs[t := Entered])
    case TakeIdle(t) =>
      var i := s.idle[0];
      Return(s, t, i.conn).(idle := s.idle[1..], closed := if Expired(s, i) then s.closed + {i.conn} else s.closed)
    case FindNoIdle(t) => s.(pcs := s.pcs[t := NeedsLock])
    case LockedGet(t) =>
      if s.cnt >= s.config.maxCnt then
        s.(waiters := s.waiters + [t], queued := s.queued + [t], pcs := s.pcs[t := Waiting])
      else
        Return(s, t, s.created).(cnt := s.cnt + 1, created := s.created + 1)
    case FactoryFails(t) => s.(leaked := true, pcs := s.pcs - {t})
    case Receive(t) => Return(s, t, s.slots[t]).(slots := s.slots - {t})
    case Cancel(t) => s.(pcs := s.pcs[t := Forwarding])
    case Forward(t) => s.(slots := s.slots - {t}, pcs := s.pcs[t := Putting(s.slots[t])])
    case CallPut(t, c) => s.(used := s.used + {t}, held := s.held - {c}, pcs := s.pcs[t := Putting(c)])
    case LockedPut(t) =>
      var c := s.pcs[t].conn;
      if s.waiters != [] then
        s.(waiters := s.waiters[1..], served := s.served + [s.waiters[0]], pcs := s.pcs[t := Sending(s.waiters[0], c)])
      else if |s.idle| < s.config.maxIdleCnt then
        s.(idle := s.idle + [IdleConn(c, s.now)], pcs := s.pcs - {t})
      else
        s.(dropped := s.dropped + {c}, closed := s.closed + {c}, pcs := s.pcs - {t})
    case Fill(t) =>
      var Sending(to, c) := s.pcs[t];
      s.(slots := s.slots[to := c], filled := s.filled + {to}, pcs := s.pcs - {t})
    case Tick => s.(now := s.now + 1)
  }

  // ---- Ownership: where a connection is ----

  datatype Place = InIdle(i: nat) | InSlot(t: Tid) | InHand(t: Tid) | WithCaller(t: Tid) | Dropped

  predicate Is(s: State, p: Place, c: Conn) {
    match p
    case InIdle(i) => i < |s.idle| && s.idle[i].conn == c
    case InSlot(t) => t in s.slots && s.slots[t] == c
    case InHand(t) => t in s.pcs && (s.pcs[t].Putting? || s.pcs[t].Sending?) && s.pcs[t].conn == c
    case WithCaller(t) => c in s.held && s.held[c] == t
    case Dropped => c in s.dropped
  }

  predicate Made(s: State, c: Conn) {
    c < s.created
  }

  ghost predicate Somewhere(s: State, c: Conn) {
    exists p :: Is(s, p, c)
  }

  /** Every connection that was ever made is somewhere, ... */
  ghost predicate NoneLost(s: State) {
    forall c :: Made(s, c) ==> Somewhere(s, c)
  }

  /** ... and nowhere else. */
  ghost predicate NoneShared(s: State) {
    forall p, q, c :: Is(s, p, c) && Is(s, q, c) ==> p == q
  }

  ghost predicate NoneInvented(s: State) {
    forall p, c :: Is(s, p, c) ==> Made(s, c)
  }

  ghost predicate Conserved(s: State) {
    NoneLost(s) && NoneShared(s) && NoneInvented(s)
  }

  // ---- The waiter queue ----

  /** Requests leave the queue in the order they joined it. */
  ghost predicate Fifo(s: State) {
    s.queued == s.served + s.waiters && Distinct(s.queued)
    && (forall t :: t in s.queued ==> t in s.used)
    && (forall t :: t in s.pcs ==> t in s.used)
    && (forall t :: t in s.filled || IsWaiter(s, t) ==> t in s.queued)
    && (forall t :: t in s.pcs && (s.pcs[t].Entered? || s.pcs[t].NeedsLock?) ==> t !in s.queued)
  }

  /** A queued request is live, and neither filled nor about to be. */
  ghost predicate QueuedInv(s: State) {
    forall w :: w in s.waiters ==> IsWaiter(s, w) && w !in s.slots && w !in s.filled
  }

  /** The slot of `to` is empty, was never filled, and has its receiver waiting. */
  ghost predicate Sound(s: State, to: Tid) {
    IsWaiter(s, to) && to !in s.slots && to !in s.filled && to !in s.waiters
  }

  /** A slot about to be filled can be filled, and by one sender only. */
  ghost predicate SendingInv(s: State) {
    (forall t :: IsSender(s, t) ==> Sound(s, s.pcs[t].to))
    && (forall t, u :: IsSender(s, t) && IsSender(s, u) && s.pcs[t].to == s.pcs[u].to ==> t == u)
  }

  ghost predicate SlotsInv(s: State) {
    forall t :: t in s.slots ==> IsWaiter(s, t) && t in s.filled
  }

  ghost predicate SentTo(s: State, t: Tid) {
    exists u :: IsSender(s, u) && s.pcs[u].to == t
  }

  /** A request that waits is queued, about to be filled, or filled: never forgotten. */
  ghost predicate NotForgotten(s: State) {
    forall t :: IsWaiter(s, t) ==> t in s.waiters || t in s.slots || SentTo(s, t)
  }

  ghost predicate QueueInv(s: State) {
    Fifo(s) && QueuedInv(s) && SendingInv(s) && SlotsInv(s) && NotForgotten(s)
  }

  /** Bounds, and what was dropped is closed; a pool is only ever built with no more initial connections than the idle channel takes. */
  ghost predicate Bounded(s: State) {
    s.cnt <= s.config.maxCnt && |s.idle| <= s.config.maxIdleCnt && s.created == s.config.initCnt + s.cnt
    && s.dropped <= s.closed
  }

  ghost predicate Inv(s: State) {
    Conserved(s) && QueueInv(s) && Bounded(s)
  }

  lemma InitInv(config: Config, now: nat)
    requires config.initCnt <= config.maxIdleCnt
    ensures Inv(Init(config, now))
  {
    var s := Init(config, now);
    forall c | Made(s, c)
      ensures Somewhere(s, c)
    {
      assert Is(s, InIdle(c), c);
    }
  }

  lemma StepKeepsBounds(s: State, step: Step)
    requires Bounded(s) && Enabled(s, step)
    ensures Bounded(Apply(s, step))
  {
  }

  // ---- Conservation, step by step ----

  /** Where the step takes connection `c` from `p`. */
  function After(s: State, step: Step, p: Place, c: Conn): Place
    requires Enabled(s, step)
  {
    match step
    case TakeIdle(t) => if p == InIdle(0) then WithCaller(t) else if p.InIdle? && p.i > 0 then InIdle(p.i - 1) else p
    case Receive(t) => if p == InSlot(t) then WithCaller(t) else p
    case Forward(t) => if p == InSlot(t) then InHand(t) else p
    case CallPut(t, d) => if c == d && p == WithCaller(s.held[d]) then InHand(t) else p
    case LockedPut(t) =>
      if p != InHand(t) || s.waiters != [] then p
      else if |s.idle| < s.config.maxIdleCnt then InIdle(|s.idle|)
      else Dropped
    case Fill(t) => if p == InHand(t) then InSlot(s.pcs[t].to) else p
    case _ => p
  }

  predicate Moves(step: Step) {
    step.TakeIdle? || step.Receive? || step.Forward? || step.CallPut? || step.LockedPut? || step.Fill?
  }

  lemma Rests(s: State, step: Step, p: Place, c: Conn)
    requires NoneInvented(s) && Fifo(s) && Enabled(s, step) && !Moves(step) && Made(s, c)
    ensures Is(Apply(s, step), p, c) <==> Is(s, p, c)
  {
  }

  /** The place a moving step takes its connection from. */
  function Source(s: State, step: Step): Place
    requires Enabled(s, step) && Moves(step)
  {
    match step
    case TakeIdle(_) => InIdle(0)
    case Receive(t) => InSlot(t)
    case Forward(t) => InSlot(t)
    case CallPut(_, d) => WithCaller(s.held[d])
    case LockedPut(t) => InHand(t)
    case Fill(t) => InHand(t)
  }

  lemma GoesTo(s: State, step: Step, p: Place, c: Conn)
    requires NoneShared(s) && NoneInvented(s) && Fifo(s) && Enabled(s, step) && Is(s, p, c)
    ensures Is(Apply(s, step), After(s, step, p, c), c)
  {
    if !Moves(step) {
      Rests(s, step, p, c);
    } else if p == Source(s, step) {
      MovesOn(s, step, c);
    } else {
      StaysBehind(s, step, p, c);
    }
  }

  lemma MovesOn(s: State, step: Step, c: Conn)
    requires Fifo(s) && Enabled(s, step) && Moves(step) && Is(s, Source(s, step), c)
    ensures Is(Apply(s, step), After(s, step, Source(s, step), c), c)
  {
  }

  lemma StaysBehind(s: State, step: Step, p: Place, c: Conn)
    requires NoneShared(s) && Fifo(s) && Enabled(s, step) && Moves(step) && Is(s, p, c) && p != Source(s, step)
    ensures Is(Apply(s, step), After(s, step, p, c), c)
  {
    assert !Is(s, Source(s, step), c);
  }

  /** A connection that is not the one moved was where it is, or one place up the idle channel. */
  lemma Bystander(s: State, step: Step, q: Place, c: Conn)
    requires Fifo(s) && Enabled(s, step) && Moves(step) && Is(Apply(s, step), q, c) && !Is(s, Source(s, step), c)
    ensures Is(s, if step.TakeIdle? && q.InIdle? then InIdle(q.i + 1) else q, c)
  {
  }

  lemma Moved(s: State, step: Step, q: Place, c: Conn)
    requires NoneShared(s) && Fifo(s) && Enabled(s, step) && Moves(step)
    requires Is(s, Source(s, step), c) && Is(Apply(s, step), q, c)
    ensures q == After(s, step, Source(s, step), c)
  {
    assert Is(s, q, c) ==> q == Source(s, step);
    assert step.TakeIdle? && q.InIdle? ==> Is(s, InIdle(q.i + 1), c);
  }

  lemma CameFrom(s: State, step: Step, q: Place, c: Conn) returns (p: Place)
    requires NoneShared(s) && NoneInvented(s) && Fifo(s) && Enabled(s, step) && Is(Apply(s, step), q, c) && Made(s, c)
    ensures Is(s, p, c) && q == After(s, step, p, c)
  {
    if !Moves(step) {
      Rests(s, step, q, c);
      p := q;
    } else if Is(s, Source(s, step), c) {
      p := Source(s, step);
      Moved(s, step, q, c);
    } else {
      p := if step.TakeIdle? && q.InIdle? then InIdle(q.i + 1) else q;
      Bystander(s, step, q, c);
    }
  }

  lemma StepConserves(s: State, step: Step)
    requires Conserved(s) && Fifo(s) && Bounded(s) && Enabled(s, step)
    ensures Conserved(Apply(s, step))
  {
    var s' := Apply(s, step);
    forall p, c | Is(s', p, c)
      ensures Made(s', c)
    {
      if Made(s, c) {
      } else {
        NewConnection(s, step, p, c);
      }
    }
    forall p, q, c | Is(s', p, c) && Is(s', q, c)
      ensures p == q
    {
      if Made(s, c) {
        var p0 := CameFrom(s, step, p, c);
        var q0 := CameFrom(s, step, q, c);
        assert p0 == q0;
      } else {
        NewConnection(s, step, p, c);
        NewConnection(s, step, q, c);
      }
    }
    forall c | Made(s', c)
      ensures Somewhere(s', c)
    {
      if Made(s, c) {
        assert Somewhere(s, c);
        var p :| Is(s, p, c);
        GoesTo(s, step, p, c);
      } else {
        assert Is(s', WithCaller(step.t), c);
      }
    }
  }

  predicate Creates(s: State, step: Step) {
    step.LockedGet? && s.cnt < s.config.maxCnt
  }

  /** A connection that was never made before goes to the Get that made it and nowhere else. */
  lemma NewConnection(s: State, step: Step, p: Place, c: Conn)
    requires NoneInvented(s) && Fifo(s) && Enabled(s, step) && Is(Apply(s, step), p, c)
    ensures Made(s, c) || (Creates(s, step) && p == WithCaller(step.t) && c == s.created)
  {
    if Moves(step) {
      if !Is(s, Source(s, step), c) {
        Bystander(s, step, p, c);
      }
    } else {
      assert Is(s, p, c) || Creates(s, step);
      assert Is(s, p, c) ==> Made(s, c);
    }
  }

  // ---- The queue, step by step ----

  lemma FifoStep(s: State, step: Step)
    requires Fifo(s) && SendingInv(s) && Enabled(s, step)
    ensures Fifo(Apply(s, step))
  {
    QueueOrder(s, step);
    QueueMembers(s, step);
    KnownGivesFifo(Apply(s, step));
  }

  lemma KnownGivesFifo(s: State)
    requires s.queued == s.served + s.waiters && Distinct(s.queued) && forall t :: Known(s, t)
    ensures Fifo(s)
  {
    assert forall t :: (t in s.queued ==> Known(s, t)) && (t in s.pcs ==> Known(s, t)) && (t in s.filled ==> Known(s, t));
  }

  ghost predicate Known(s: State, t: Tid) {
    && (t in s.queued || t in s.pcs ==> t in s.used)
    && (t in s.filled || IsWaiter(s, t) ==> t in s.queued)
    && (t in s.pcs && (s.pcs[t].Entered? || s.pcs[t].NeedsLock?) ==> t !in s.queued)
  }

  lemma QueueMembers(s: State, step: Step)
    requires Fifo(s) && SendingInv(s) && Enabled(s, step)
    ensures forall t :: Known(Apply(s, step), t)
  {
    forall t
      ensures Known(Apply(s, step), t)
    {
      assert Known(s, t);
      assert step.Fill? ==> IsSender(s, step.t) && IsWaiter(s, s.pcs[step.t].to);
      KnownStep(s, step, t);
    }
  }

  lemma KnownStep(s: State, step: Step, t: Tid)
    requires Enabled(s, step) && Known(s, t) && (step.Fill? ==> s.pcs[step.t].to in s.queued)
    ensures Known(Apply(s, step), t)
  {
  }

  lemma QueueOrder(s: State, step: Step)
    requires Fifo(s) && Enabled(s, step)
    ensures var s' := Apply(s, step); s'.queued == s'.served + s'.waiters && Distinct(s'.queued)
    ensures var s' := Apply(s, step);
            s'.queued == s.queued || (step.LockedGet? && s'.queued == s.queued + [step.t] && s'.pcs[step.t] == Waiting)
  {
    var s' := Apply(s, step);
    if step.LockedPut? && s.waiters != [] {
      assert s.waiters == [s.waiters[0]] + s.waiters[1..];
      assert s'.queued == s'.served + s'.waiters;
    } else if step.LockedGet? && s.cnt >= s.config.maxCnt {
      assert s'.queued == s'.served + s'.waiters;
    } else {
      assert s'.queued == s.queued && s'.served == s.served && s'.waiters == s.waiters;
    }
  }

  lemma WaitersInQueue(s: State)
    requires Fifo(s)
    ensures Distinct(s.waiters) && forall t :: t in s.waiters ==> t in s.queued
  {
    forall i, j | 0 <= i < j < |s.waiters|
      ensures s.waiters[i] != s.waiters[j]
    {
      assert s.queued[|s.served| + i] == s.waiters[i] && s.queued[|s.served| + j] == s.waiters[j];
    }
  }

  lemma NotForgottenStep(s: State, step: Step)
    requires NotForgotten(s) && Fifo(s) && Enabled(s, step)
    ensures NotForgotten(Apply(s, step))
  {
    forall t | IsWaiter(Apply(s, step), t)
      ensures var s' := Apply(s, step); t in s'.waiters || t in s'.slots || SentTo(s', t)
    {
      WaiterStep(s, step, t);
    }
  }

  lemma WaiterStep(s: State, step: Step, t: Tid)
    requires Enabled(s, step) && IsWaiter(Apply(s, step), t) && forall u :: u in s.pcs ==> u in s.used
    requires IsWaiter(s, t) ==> t in s.waiters || t in s.slots || SentTo(s, t)
    ensures var s' := Apply(s, step); t in s'.waiters || t in s'.slots || SentTo(s', t)
  {
    var s' := Apply(s, step);
    if !IsWaiter(s, t) || t in s.slots {
    } else if t in s.waiters {
      if step.LockedPut? {
        assert s.waiters == [s.waiters[0]] + s.waiters[1..];
        assert IsSender(s', step.t) && s'.pcs[step.t].to == s.waiters[0];
      }
    } else {
      var u :| IsSender(s, u) && s.pcs[u].to == t;
      assert step == Fill(u) || IsSender(s', u);
    }
  }

  lemma QueuedStep(s: State, step: Step)
    requires QueueInv(s) && Enabled(s, step)
    ensures QueuedInv(Apply(s, step))
  {
    WaitersInQueue(s);
    forall w | w in Apply(s, step).waiters
      ensures var s' := Apply(s, step); IsWaiter(s', w) && w !in s'.slots && w !in s'.filled
    {
      if w in s.waiters {
        assert IsWaiter(s, w) && w !in s.slots && w !in s.filled;
        QueuedWaiterStep(s, step, w);
      } else {
        NewWaiter(s, step, w);
      }
    }
  }

  lemma QueuedWaiterStep(s: State, step: Step, w: Tid)
    requires Enabled(s, step) && SendingInv(s) && Distinct(s.waiters) && (forall t :: t in s.pcs ==> t in s.used)
    requires w in s.waiters && w in Apply(s, step).waiters && IsWaiter(s, w) && w !in s.slots && w !in s.filled
    ensures var s' := Apply(s, step); IsWaiter(s', w) && w !in s'.slots && w !in s'.filled
  {
    assert step.Fill? ==> IsSender(s, step.t);
  }

  lemma NewWaiter(s: State, step: Step, w: Tid)
    requires Enabled(s, step) && Fifo(s) && SlotsInv(s) && w !in s.waiters && w in Apply(s, step).waiters
    ensures var s' := Apply(s, step); IsWaiter(s', w) && w !in s'.slots && w !in s'.filled
  {
    assert step == LockedGet(w) && w !in s.queued && w !in s.filled;
  }

  /** A slot is only ever filled once: nobody sends to a request that was filled or has another sender. */
  lemma SendingStep(s: State, step: Step)
    requires QueueInv(s) && Enabled(s, step)
    ensures SendingInv(Apply(s, step))
  {
    WaitersInQueue(s);
    var s' := Apply(s, step);
    forall t | IsSender(s', t)
      ensures Sound(s', s'.pcs[t].to)
    {
      SenderStep(s, step, t);
    }
    SendersStayUnique(s, step);
  }

  lemma SendersStayUnique(s: State, step: Step)
    requires SendingInv(s) && QueuedInv(s) && Fifo(s) && Enabled(s, step)
    ensures var s' := Apply(s, step);
            forall t, u :: IsSender(s', t) && IsSender(s', u) && s'.pcs[t].to == s'.pcs[u].to ==> t == u
  {
    var s' := Apply(s, step);
    forall t, u | IsSender(s', t) && IsSender(s', u) && s'.pcs[t].to == s'.pcs[u].to
      ensures t == u
    {
      NewSender(s, step, t);
      NewSender(s, step, u);
    }
  }

  /** A sender has been one before, or has just taken the first request off the queue. */
  lemma NewSender(s: State, step: Step, t: Tid)
    requires Enabled(s, step) && Fifo(s) && IsSender(Apply(s, step), t)
    ensures || (IsSender(s, t) && Apply(s, step).pcs[t] == s.pcs[t])
            || (step == LockedPut(t) && s.waiters != [] && Apply(s, step).pcs[t].to == s.waiters[0] && s.waiters[0] in s.waiters)
  {
  }

  lemma SenderStep(s: State, step: Step, t: Tid)
    requires Enabled(s, step) && IsSender(Apply(s, step), t)
    requires SendingInv(s) && QueuedInv(s) && Distinct(s.waiters) && forall u :: u in s.pcs ==> u in s.used
    ensures var s' := Apply(s, step); Sound(s', s'.pcs[t].to)
  {
    var s' := Apply(s, step);
    if IsSender(s, t) {
      assert Sound(s, s.pcs[t].to);
      assert step.Fill? ==> IsSender(s, step.t);
    } else {
      assert s.waiters[0] in s.waiters && s.waiters[0] !in s.waiters[1..];
    }
  }

  lemma SlotsStep(s: State, step: Step)
    requires QueueInv(s) && Enabled(s, step)
    ensures SlotsInv(Apply(s, step))
  {
    forall t | t in Apply(s, step).slots
      ensures IsWaiter(Apply(s, step), t) && t in Apply(s, step).filled
    {
      assert step.Fill? ==> IsSender(s, step.t) && Sound(s, s.pcs[step.t].to);
      SlotStep(s, step, t);
    }
  }

  lemma SlotStep(s: State, step: Step, t: Tid)
    requires Enabled(s, step) && t in Apply(s, step).slots && (forall u :: u in s.pcs ==> u in s.used)
    requires t in s.slots ==> IsWaiter(s, t) && t in s.filled
    requires step.Fill? ==> IsWaiter(s, s.pcs[step.t].to)
    ensures IsWaiter(Apply(s, step), t) && t in Apply(s, step).filled
  {
  }

  lemma QueueStep(s: State, step: Step)
    requires QueueInv(s) && Enabled(s, step)
    ensures QueueInv(Apply(s, step))
  {
    FifoStep(s, step);
    QueuedStep(s, step);
    SendingStep(s, step);
    SlotsStep(s, step);
    NotForgottenStep(s, step);
  }

  lemma StepKeepsInv(s: State, step: Step)
    requires Inv(s) && Enabled(s, step)
    ensures Inv(Apply(s, step))
  {
    StepConserves(s, step);
    QueueStep(s, step);
    StepKeepsBounds(s, step);
  }
}
