/** Where the pool departs from its intent, and exactly when it does. */
module PoolFaults {
  import opened PoolProtocol
  import opened PoolTheorems

  // ---- A waiter beside an idle connection ----

  /** Nobody waits while a connection lies idle. */
  predicate Orderly(s: State) {
    s.waiters == [] || s.idle == []
  }

  /** A Get that saw the idle channel empty queues after a connection has come back to it. */
  predicate QueuesBesideIdle(s: State, step: Step) {
    step.LockedGet? && s.cnt >= s.config.maxCnt && s.idle != []
  }

  lemma OrderlyStepIff(s: State, step: Step)
    requires Enabled(s, step) && Orderly(s)
    ensures Orderly(Apply(s, step)) <==> !QueuesBesideIdle(s, step)
  {
  }

  /** A history stays orderly exactly as long as no Get queues beside an idle connection. */
  lemma {:induction false} OrderlyIff(states: seq<State>, steps: seq<Step>, n: nat)
    requires IsHistory(states, steps) && n < |states|
    ensures (forall i :: 0 <= i <= n ==> Orderly(states[i])) <==> (forall i :: 0 <= i < n ==> !QueuesBesideIdle(states[i], steps[i]))
  {
    if n > 0 {
      OrderlyIff(states, steps, n - 1);
      var before := forall i :: 0 <= i <= n - 1 ==> Orderly(states[i]);
      assert (forall i :: 0 <= i <= n ==> Orderly(states[i])) <==> before && Orderly(states[n]);
      if before {
        assert Orderly(states[n - 1]);
        OrderlyStepIff(states[n - 1], steps[n - 1]);
      }
    }
  }

  /** The step that first breaks it is such a Get. */
  lemma FirstDisorder(states: seq<State>, steps: seq<Step>, n: nat)
    requires IsHistory(states, steps) && n < |states| && !Orderly(states[n])
    requires forall i :: 0 <= i < n ==> Orderly(states[i])
    ensures n > 0 && QueuesBesideIdle(states[n - 1], steps[n - 1])
  {
    if n > 0 {
      OrderlyStepIff(states[n - 1], steps[n - 1]);
    }
  }

  /** An idle connection and a waiter at the same time: the idle check is made before the lock is taken. */
  lemma WaiterBesideIdleConnection(config: Config)
    requires config.maxCnt == 1 && config.maxIdleCnt > 0 && config.initCnt == 0
    ensures exists s :: Reaches(Init(config, 0), s) && s.idle != [] && s.waiters != []
  {
    var s0 := Init(config, 0);
    var s1 := Apply(s0, CallGet(0));
    var s2 := Apply(s1, FindNoIdle(0));
    var s3 := Apply(s2, LockedGet(0));       // caller 0 has the only connection
    var s4 := Apply(s3, CallGet(1));
    var s5 := Apply(s4, FindNoIdle(1));      // caller 1 has seen the idle channel empty
    var s6 := Apply(s5, CallPut(2, 0));
    var s7 := Apply(s6, LockedPut(2));       // caller 0 gives it back
    var s8 := Apply(s7, LockedGet(1));       // caller 1 queues all the same
    ReachesItself(s8);
    StepThenReaches(s7, LockedGet(1), s8);
    StepThenReaches(s6, LockedPut(2), s8);
    StepThenReaches(s5, CallPut(2, 0), s8);
    StepThenReaches(s4, FindNoIdle(1), s8);
    StepThenReaches(s3, CallGet(1), s8);
    StepThenReaches(s2, LockedGet(0), s8);
    StepThenReaches(s1, FindNoIdle(0), s8);
    StepThenReaches(s0, CallGet(0), s8);
  }

  // ---- A closed connection handed out ----

  /** Get takes connection `c` off the idle channel and closes it for having sat there too long. */
  predicate TakesExpired(s: State, step: Step, c: Conn) {
    step.TakeIdle? && s.idle != [] && s.idle[0].conn == c && Expired(s, s.idle[0])
  }

  lemma ClosedStep(s: State, step: Step, c: Conn)
    requires Enabled(s, step) && s.dropped <= s.closed
    ensures var s' := Apply(s, step);
            c in s'.closed <==> c in s.closed || TakesExpired(s, step, c) || c in s'.dropped
    ensures s.dropped <= Apply(s, step).dropped
  {
  }

  lemma {:induction false} ClosedIff(states: seq<State>, steps: seq<Step>, n: nat, c: Conn)
    requires IsHistory(states, steps) && n < |states|
    ensures c in states[n].closed
       <==> c in states[n].dropped || exists i :: 0 <= i < n && TakesExpired(states[i], steps[i], c)
  {
    if n > 0 {
      ClosedIff(states, steps, n - 1, c);
      HistoryKeepsInv(states, steps, n - 1);
      ClosedStep(states[n - 1], steps[n - 1], c);
    }
  }

  /**
    At every point of every history, a connection that is out with a caller is closed if and only if
    some Get, this one or an earlier one, took it off the idle channel too late.
   */
  lemma CallerHasClosedIff(states: seq<State>, steps: seq<Step>, n: nat, c: Conn)
    requires IsHistory(states, steps) && n < |states| && c in states[n].held
    ensures c in states[n].closed <==> exists i :: 0 <= i < n && TakesExpired(states[i], steps[i], c)
  {
    ClosedIff(states, steps, n, c);
    HistoryKeepsInv(states, steps, n);
    assert Is(states[n], WithCaller(states[n].held[c]), c);
    assert c in states[n].dropped ==> Is(states[n], Dropped, c);
  }

  /** When connection `c` was last laid on the idle channel: by NewPool, or by a Put that found nobody waiting. */
  function LaidBack(states: seq<State>, steps: seq<Step>, n: nat, c: Conn): nat
    requires |states| == |steps| + 1 && n < |states|
  {
    if n == 0 then states[0].now
    else
      var s, step := states[n - 1], steps[n - 1];
      if step.LockedPut? && At(s, step.t, Putting(c)) && s.waiters == [] then s.now
      else LaidBack(states, steps, n - 1, c)
  }

  /** An idle connection after a step was idle before, or has just been laid there. */
  lemma IdleCameFrom(s: State, step: Step, i: nat)
    requires Enabled(s, step) && i < |Apply(s, step).idle|
    ensures var info := Apply(s, step).idle[i];
            || (step.LockedPut? && At(s, step.t, Putting(info.conn)) && s.waiters == [] && info.backTime == s.now)
            || (exists j :: 0 <= j < |s.idle| && s.idle[j] == info)
  {
    var info := Apply(s, step).idle[i];
    if step.TakeIdle? {
      assert s.idle[i + 1] == info;
    } else if i < |s.idle| {
      assert s.idle[i] == info;
    }
  }

  lemma {:induction false} BackTimeIs(states: seq<State>, steps: seq<Step>, n: nat, i: nat)
    requires IsHistory(states, steps) && n < |states| && i < |states[n].idle|
    ensures states[n].idle[i].backTime == LaidBack(states, steps, n, states[n].idle[i].conn)
  {
    if n > 0 {
      var s, step, info := states[n - 1], steps[n - 1], states[n].idle[i];
      IdleCameFrom(s, step, i);
      if j: nat :| j < |s.idle| && s.idle[j] == info {
        HistoryKeepsInv(states, steps, n - 1);
        assert Is(s, InIdle(j), info.conn);
        assert step.LockedPut? && At(s, step.t, Putting(info.conn)) ==> Is(s, InHand(step.t), info.conn);
        BackTimeIs(states, steps, n - 1, j);
      }
    }
  }

  /** Get closes the connection it takes if and only if more than the expiration has passed since it was laid there. */
  lemma TakeClosesIff(states: seq<State>, steps: seq<Step>, n: nat)
    requires IsHistory(states, steps) && n < |steps| && steps[n].TakeIdle?
    ensures states[n].idle != []
    ensures var c := states[n].idle[0].conn;
            states[n + 1].closed
            == states[n].closed + if LaidBack(states, steps, n, c) + states[0].config.expiration < states[n].now then {c} else {}
  {
    HistoryKeepsInv(states, steps, n);
    BackTimeIs(states, steps, n, 0);
  }

  /** So a caller's connection is closed if and only if it was once left there for longer than the expiration. */
  lemma CallerHasClosedInWords(states: seq<State>, steps: seq<Step>, n: nat, c: Conn)
    requires IsHistory(states, steps) && n < |states| && c in states[n].held
    ensures c in states[n].closed
       <==> exists i :: 0 <= i < n && steps[i].TakeIdle? && states[i].idle != [] && states[i].idle[0].conn == c
                        && LaidBack(states, steps, i, c) + states[0].config.expiration < states[i].now
  {
    CallerHasClosedIff(states, steps, n, c);
    forall i | 0 <= i < n && steps[i].TakeIdle? && states[i].idle != [] && states[i].idle[0].conn == c
      ensures TakesExpired(states[i], steps[i], c)
         <==> LaidBack(states, steps, i, c) + states[0].config.expiration < states[i].now
    {
      HistoryKeepsInv(states, steps, i);
      BackTimeIs(states, steps, i, 0);
    }
  }

  /** Within its expiration a connection comes out as open as it went in. */
  lemma TakenInTimeStaysOpen()
    ensures var s := Apply(Apply(Init(Config(1, 1, 1, 10), 0), Tick), CallGet(0));
            Enabled(s, TakeIdle(0)) && Apply(s, TakeIdle(0)).closed == {}
  {
    assert Init(Config(1, 1, 1, 10), 0).idle == [IdleConn(0, 0)];
  }

  const OneConn := Config(1, 1, 1, 0)

  const ClosedOut := Init(OneConn, 0).(now := 1, idle := [], held := map[0 := 0], closed := {0}, used := {0})

  /** A Get that comes too late closes the connection and returns it. */
  lemma GetReturnsWhatItClosed()
    ensures Reaches(Init(OneConn, 0), ClosedOut) && 0 in ClosedOut.held && 0 in ClosedOut.closed
  {
    var s0 := Init(OneConn, 0);
    var s1 := Apply(s0, Tick);
    var s2 := Apply(s1, CallGet(0));
    assert s0.idle == [IdleConn(0, 0)] && s2.pcs - {0} == map[];
    assert Apply(s2, TakeIdle(0)) == ClosedOut;
    ReachesItself(ClosedOut);
    StepThenReaches(s2, TakeIdle(0), ClosedOut);
    StepThenReaches(s1, CallGet(0), ClosedOut);
    StepThenReaches(s0, Tick, ClosedOut);
  }

  lemma ClosedComesBack() returns (s: State)
    ensures Reaches(ClosedOut, s) && At(s, 2, Entered) && s.idle == [IdleConn(0, 1)] && s.now == 1 && s.closed == {0}
    ensures s.config == OneConn
  {
    var s1 := Apply(ClosedOut, CallPut(1, 0));
    var s2 := Apply(s1, LockedPut(1));
    s := Apply(s2, CallGet(2));
    ReachesItself(s);
    StepThenReaches(s2, CallGet(2), s);
    StepThenReaches(s1, LockedPut(1), s);
    StepThenReaches(ClosedOut, CallPut(1, 0), s);
  }

  /** Put back, it is handed out again, closed as it is, by a Get that comes in time. */
  lemma GetReturnsWhatWasClosedBefore()
    ensures exists s :: Reaches(Init(OneConn, 0), s) && Enabled(s, TakeIdle(2)) && !Expired(s, s.idle[0])
                        && (var s' := Apply(s, TakeIdle(2)); 0 in s'.held && s'.held[0] == 2 && 0 in s'.closed)
  {
    GetReturnsWhatItClosed();
    var s := ClosedComesBack();
    ReachesThrough(Init(OneConn, 0), ClosedOut, s);
  }

  // ---- A factory error ----

  /** After one failed factory call the mutex stays locked: no Put and no slow Get ever gets further. */
  lemma {:induction false} FactoryErrorStopsThePool(states: seq<State>, steps: seq<Step>, m: nat, n: nat, t: Tid)
    requires IsHistory(states, steps) && m <= n < |states| && states[m].leaked
    ensures states[n].leaked && states[n].waiters == states[m].waiters && states[n].created == states[m].created
    ensures states[n].dropped == states[m].dropped
    ensures t in states[m].pcs && (states[m].pcs[t].Putting? || states[m].pcs[t].NeedsLock?)
            ==> t in states[n].pcs && states[n].pcs[t] == states[m].pcs[t]
    decreases n - m
  {
    if m < n {
      FactoryErrorStopsThePool(states, steps, m, n - 1, t);
      PcsInUse(states, steps, n - 1);
      LeakedStep(states[n - 1], steps[n - 1], t);
    }
  }

  lemma PcsInUse(states: seq<State>, steps: seq<Step>, n: nat)
    requires IsHistory(states, steps) && n < |states|
    ensures forall t :: t in states[n].pcs ==> t in states[n].used
  {
    HistoryKeepsInv(states, steps, n);
  }

  lemma LeakedStep(s: State, step: Step, t: Tid)
    requires Enabled(s, step) && s.leaked && forall u :: u in s.pcs ==> u in s.used
    ensures var s' := Apply(s, step);
            && s'.leaked && s'.waiters == s.waiters && s'.created == s.created && s'.dropped == s.dropped
            && (t in s.pcs && (s.pcs[t].Putting? || s.pcs[t].NeedsLock?) ==> t in s'.pcs && s'.pcs[t] == s.pcs[t])
  {
  }

  /** The mutex stays locked if and only if the factory has failed once. */
  lemma {:induction false} LeakedIff(states: seq<State>, steps: seq<Step>, n: nat)
    requires IsHistory(states, steps) && n < |states|
    ensures states[n].leaked <==> exists i :: 0 <= i < n && steps[i].FactoryFails?
  {
    if n > 0 {
      LeakedIff(states, steps, n - 1);
      LeakedChange(states[n - 1], steps[n - 1]);
    }
  }

  lemma LeakedChange(s: State, step: Step)
    requires Enabled(s, step)
    ensures Apply(s, step).leaked <==> s.leaked || step.FactoryFails?
  {
  }

  /** So a Put, or a Get that found nothing idle, can go on if and only if it has not. */
  lemma GoesOnIff(states: seq<State>, steps: seq<Step>, n: nat, t: Tid)
    requires IsHistory(states, steps) && n < |states| && t in states[n].pcs
    requires states[n].pcs[t].Putting? || states[n].pcs[t].NeedsLock?
    ensures Enabled(states[n], if states[n].pcs[t].Putting? then LockedPut(t) else LockedGet(t))
       <==> !exists i :: 0 <= i < n && steps[i].FactoryFails?
  {
    LeakedIff(states, steps, n);
  }

  /** A caller with a connection, a factory error of another, and the Put is stuck. */
  lemma PutIsStuck(config: Config)
    requires config.maxCnt == 2 && config.initCnt == 0
    ensures exists s :: Reaches(Init(config, 0), s) && At(s, 2, Putting(0)) && s.leaked && !Enabled(s, LockedPut(2))
  {
    var s0 := Init(config, 0);
    var s1 := Apply(s0, CallGet(0));
    var s2 := Apply(s1, FindNoIdle(0));
    var s3 := Apply(s2, LockedGet(0));
    var s4 := Apply(s3, CallGet(1));
    var s5 := Apply(s4, FindNoIdle(1));
    var s6 := Apply(s5, FactoryFails(1));
    var s7 := Apply(s6, CallPut(2, 0));
    ReachesItself(s7);
    StepThenReaches(s6, CallPut(2, 0), s7);
    StepThenReaches(s5, FactoryFails(1), s7);
    StepThenReaches(s4, FindNoIdle(1), s7);
    StepThenReaches(s3, CallGet(1), s7);
    StepThenReaches(s2, LockedGet(0), s7);
    StepThenReaches(s1, FindNoIdle(0), s7);
    StepThenReaches(s0, CallGet(0), s7);
  }

  // ---- Capacity lost for good ----

  /** The count is used up and every connection was dropped; the count never goes down again. */
  ghost predicate Exhausted(s: State) {
    s.cnt == s.config.maxCnt && forall c :: Made(s, c) ==> c in s.dropped
  }

  /** Some way of going on takes a request off the queue. */
  ghost predicate Servable(s: State) {
    exists s' :: Reaches(s, s') && |s.served| < |s'.served|
  }

  /** Then no connection is anywhere a Put could take it from. */
  lemma ExhaustedIsEmpty(s: State)
    requires Inv(s) && Exhausted(s)
    ensures s.idle == [] && s.slots == map[] && s.held == map[]
    ensures forall t :: t in s.pcs ==> !s.pcs[t].Putting? && !s.pcs[t].Sending?
  {
    forall p, c | Is(s, p, c)
      ensures p == Dropped
    {
      assert Made(s, c) && Is(s, Dropped, c);
    }
    assert s.idle != [] ==> Is(s, InIdle(0), s.idle[0].conn);
    assert forall t :: t in s.slots ==> Is(s, InSlot(t), s.slots[t]);
    assert forall c :: c in s.held ==> Is(s, WithCaller(s.held[c]), c);
    assert forall t :: t in s.pcs && (s.pcs[t].Putting? || s.pcs[t].Sending?) ==> Is(s, InHand(t), s.pcs[t].conn);
  }

  lemma ExhaustedStep(s: State, step: Step)
    requires Inv(s) && Exhausted(s) && Enabled(s, step)
    ensures Inv(Apply(s, step)) && Exhausted(Apply(s, step)) && Apply(s, step).served == s.served
  {
    ExhaustedIsEmpty(s);
    StepKeepsInv(s, step);
  }

  lemma {:induction false} ExhaustedForGood(states: seq<State>, steps: seq<Step>, n: nat)
    requires IsRun(states, steps) && n < |states| && Inv(states[0]) && Exhausted(states[0])
    ensures Inv(states[n]) && Exhausted(states[n]) && states[n].served == states[0].served
  {
    if n > 0 {
      ExhaustedForGood(states, steps, n - 1);
      ExhaustedStep(states[n - 1], steps[n - 1]);
    }
  }

  lemma {:induction false} LockedForGood(states: seq<State>, steps: seq<Step>, n: nat)
    requires IsRun(states, steps) && n < |states| && states[0].leaked
    ensures states[n].leaked && states[n].served == states[0].served
  {
    if n > 0 {
      LockedForGood(states, steps, n - 1);
    }
  }

  lemma ServableBefore(s: State, step: Step)
    requires Enabled(s, step) && Servable(Apply(s, step)) && Apply(s, step).served == s.served
    ensures Servable(s)
  {
    var s' :| Reaches(Apply(s, step), s') && |s.served| < |s'.served|;
    StepThenReaches(s, step, s');
  }

  lemma PutServes(s: State, t: Tid)
    requires s.waiters != [] && !s.leaked && t in s.pcs && s.pcs[t].Putting?
    ensures Servable(s)
  {
    var s' := Apply(s, LockedPut(t));
    ReachesItself(s');
    StepThenReaches(s, LockedPut(t), s');
  }

  lemma Unused(s: State) returns (t: Tid)
    ensures t !in s.used
  {
    t := AboveAll(s.used);
  }

  lemma {:induction false} AboveAll(used: set<Tid>) returns (t: Tid)
    ensures forall u :: u in used ==> u < t
    decreases used
  {
    if used == {} {
      t := 0;
    } else {
      var u :| u in used;
      var rest := AboveAll(used - {u});
      t := if rest > u then rest else u + 1;
      assert forall v :: v in used ==> v == u || v in used - {u};
    }
  }

  lemma CallerServes(s: State, c: Conn)
    requires s.waiters != [] && !s.leaked && c in s.held
    ensures Servable(s)
  {
    var t := Unused(s);
    PutServes(Apply(s, CallPut(t, c)), t);
    ServableBefore(s, CallPut(t, c));
  }

  lemma IdleServes(s: State)
    requires s.waiters != [] && !s.leaked && s.idle != []
    ensures Servable(s)
  {
    var t := Unused(s);
    var s1 := Apply(s, CallGet(t));
    CallerServes(Apply(s1, TakeIdle(t)), s.idle[0].conn);
    ServableBefore(s1, TakeIdle(t));
    ServableBefore(s, CallGet(t));
  }

  lemma SlotServes(s: State, t: Tid)
    requires s.waiters != [] && !s.leaked && t in s.slots && IsWaiter(s, t)
    ensures Servable(s)
  {
    if s.pcs[t].Waiting? {
      CallerServes(Apply(s, Receive(t)), s.slots[t]);
      ServableBefore(s, Receive(t));
    } else {
      PutServes(Apply(s, Forward(t)), t);
      ServableBefore(s, Forward(t));
    }
  }

  lemma SenderServes(s: State, t: Tid)
    requires Inv(s) && s.waiters != [] && !s.leaked && IsSender(s, t)
    ensures Servable(s)
  {
    var to := s.pcs[t].to;
    assert Sound(s, to);
    assert t != to;
    SlotServes(Apply(s, Fill(t)), to);
    ServableBefore(s, Fill(t));
  }

  lemma PlaceServes(s: State, p: Place, c: Conn)
    requires Inv(s) && s.waiters != [] && !s.leaked && Is(s, p, c) && !p.Dropped?
    ensures Servable(s)
  {
    match p {
      case InIdle(_) => IdleServes(s);
      case InSlot(t) => SlotServes(s, t);
      case InHand(t) =>
        if s.pcs[t].Putting? {
          PutServes(s, t);
        } else {
          SenderServes(s, t);
        }
      case WithCaller(_) => CallerServes(s, c);
    }
  }

  /** Room for one more: a new Get makes a connection that can then be put back. */
  lemma RoomServes(s: State)
    requires s.waiters != [] && !s.leaked && s.idle == [] && s.cnt < s.config.maxCnt
    ensures Servable(s)
  {
    var t := Unused(s);
    var s1 := Apply(s, CallGet(t));
    var s2 := Apply(s1, FindNoIdle(t));
    var s3 := Apply(s2, LockedGet(t));
    CallerServes(s3, s.created);
    ServableBefore(s2, LockedGet(t));
    ServableBefore(s1, FindNoIdle(t));
    ServableBefore(s, CallGet(t));
  }

  /**
    Waiting requests can still be served, in some continuation, if and only if the factory has not left
    the mutex locked and the pool is not exhausted.
   */
  lemma WaiterCanBeServedIff(s: State)
    requires Inv(s) && s.waiters != []
    ensures Servable(s) <==> !s.leaked && !Exhausted(s)
  {
    if s.leaked || Exhausted(s) {
      forall s' | Reaches(s, s')
        ensures s'.served == s.served
      {
        var states, steps :| IsRun(states, steps) && states[0] == s && states[|steps|] == s';
        if s.leaked {
          LockedForGood(states, steps, |steps|);
        } else {
          ExhaustedForGood(states, steps, |steps|);
        }
      }
    } else if s.idle != [] {
      IdleServes(s);
    } else if s.cnt < s.config.maxCnt {
      RoomServes(s);
    } else {
      var c :| Made(s, c) && c !in s.dropped;
      assert Somewhere(s, c);
      var p :| Is(s, p, c);
      PlaceServes(s, p, c);
    }
  }

  const NoIdle := Config(1, 0, 0, 0)

  /** The only connection has been made, put back and closed. */
  const UsedUp := Init(NoIdle, 0).(cnt := 1, created := 1, used := {0, 1}, dropped := {0}, closed := {0})

  lemma OneGetUsesItUp()
    ensures Reaches(Init(NoIdle, 0), UsedUp)
  {
    var s0 := Init(NoIdle, 0);
    var s1 := Apply(s0, CallGet(0));
    var s2 := Apply(s1, FindNoIdle(0));
    var s3 := Apply(s2, LockedGet(0));
    var s4 := Apply(s3, CallPut(1, 0));
    assert s3.pcs == map[] && s3.held == map[0 := 0];
    assert s4.pcs == map[1 := Putting(0)] && s4.held == map[];
    assert Apply(s4, LockedPut(1)) == UsedUp;
    ReachesItself(UsedUp);
    StepThenReaches(s4, LockedPut(1), UsedUp);
    StepThenReaches(s3, CallPut(1, 0), UsedUp);
    StepThenReaches(s2, LockedGet(0), UsedUp);
    StepThenReaches(s1, FindNoIdle(0), UsedUp);
    StepThenReaches(s0, CallGet(0), UsedUp);
  }

  lemma SecondGetQueues() returns (s: State)
    ensures Reaches(UsedUp, s) && s.waiters == [2] && Exhausted(s)
  {
    var s1 := Apply(UsedUp, CallGet(2));
    var s2 := Apply(s1, FindNoIdle(2));
    s := Apply(s2, LockedGet(2));
    ReachesItself(s);
    StepThenReaches(s2, LockedGet(2), s);
    StepThenReaches(s1, FindNoIdle(2), s);
    StepThenReaches(UsedUp, CallGet(2), s);
  }

  /** One Get, its Put, and a second Get waits for ever: nothing idle is kept, and the count stays used up. */
  lemma SecondGetWaitsForEver()
    ensures exists s :: Reaches(Init(NoIdle, 0), s) && s.waiters == [2] && !Servable(s)
  {
    OneGetUsesItUp();
    var s := SecondGetQueues();
    ReachesThrough(Init(NoIdle, 0), UsedUp, s);
    ReachedKeepsInv(NoIdle, 0, s);
    WaiterCanBeServedIff(s);
  }

  lemma ReachedKeepsInv(config: Config, now: nat, s: State)
    requires config.initCnt <= config.maxIdleCnt && Reaches(Init(config, now), s)
    ensures Inv(s)
  {
    var states, steps :| IsRun(states, steps) && states[0] == Init(config, now) && states[|steps|] == s;
    HistoryKeepsInv(states, steps, |steps|);
  }
}
