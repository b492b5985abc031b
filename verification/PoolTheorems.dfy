/** What holds in every run of the connection pool. */
module PoolTheorems {
  import opened Wrappers
  import opened PoolProtocol

  ghost predicate IsRun(states: seq<State>, steps: seq<Step>) {
    |states| == |steps| + 1
    && forall i :: 0 <= i < |steps| ==> Enabled(states[i], steps[i]) && states[i + 1] == Apply(states[i], steps[i])
  }

  /** A run of a pool that `NewPool` returned; with more initial connections than idle places it never returns. */
  ghost predicate IsHistory(states: seq<State>, steps: seq<Step>) {
    IsRun(states, steps)
    && states[0] == Init(states[0].config, states[0].now) && states[0].config.initCnt <= states[0].config.maxIdleCnt
  }

  lemma {:induction false} HistoryKeepsInv(states: seq<State>, steps: seq<Step>, n: nat)
    requires IsHistory(states, steps) && n < |states|
    ensures Inv(states[n]) && states[n].config == states[0].config
  {
    if n == 0 {
      InitInv(states[0].config, states[0].now);
    } else {
      HistoryKeepsInv(states, steps, n - 1);
      StepKeepsInv(states[n - 1], steps[n - 1]);
    }
  }

  /**
    Ownership and conservation: at every point of every interleaving, each connection ever made is in
    exactly one place: idle, in a slot, in the hands of a Put or a forwarder, out with one caller, or
    dropped and closed.
   */
  lemma EachConnectionHasOnePlace(states: seq<State>, steps: seq<Step>, n: nat, c: Conn) returns (p: Place)
    requires IsHistory(states, steps) && n < |states| && c < states[n].created
    ensures Is(states[n], p, c) && forall q :: Is(states[n], q, c) ==> q == p
    ensures p.Dropped? ==> c in states[n].closed
  {
    HistoryKeepsInv(states, steps, n);
    assert Made(states[n], c) && Somewhere(states[n], c);
    p :| Is(states[n], p, c);
  }

  /** ... and nothing that was never made turns up anywhere. */
  lemma OnlyMadeConnections(states: seq<State>, steps: seq<Step>, n: nat, p: Place, c: Conn)
    requires IsHistory(states, steps) && n < |states| && Is(states[n], p, c)
    ensures c < states[n].created
  {
    HistoryKeepsInv(states, steps, n);
  }

  lemma PoolBounds(states: seq<State>, steps: seq<Step>, n: nat)
    requires IsHistory(states, steps) && n < |states|
    ensures var s := states[n]; var config := states[0].config;
            && s.cnt <= config.maxCnt && |s.idle| <= config.maxIdleCnt
            && s.cnt == s.created - config.initCnt
            && s.created <= config.initCnt + config.maxCnt
  {
    HistoryKeepsInv(states, steps, n);
  }

  /** A Put that has taken a request off the queue finds its slot empty, so it never blocks on it. */
  lemma SenderNeverBlocks(states: seq<State>, steps: seq<Step>, n: nat, t: Tid)
    requires IsHistory(states, steps) && n < |states| && IsSender(states[n], t)
    ensures Enabled(states[n], Fill(t)) && IsWaiter(states[n], states[n].pcs[t].to)
  {
    HistoryKeepsInv(states, steps, n);
    assert Sound(states[n], states[n].pcs[t].to);
  }

  lemma {:induction false} FilledStays(states: seq<State>, steps: seq<Step>, m: nat, n: nat)
    requires IsRun(states, steps) && m <= n < |states|
    ensures states[m].filled <= states[n].filled
    decreases n - m
  {
    if m < n {
      FilledStays(states, steps, m, n - 1);
    }
  }

  /** No request is handed two connections. */
  lemma SlotIsFilledOnce(states: seq<State>, steps: seq<Step>, i: nat, j: nat)
    requires IsHistory(states, steps) && i < j < |steps| && steps[i].Fill? && steps[j].Fill?
    ensures states[i].pcs[steps[i].t].to != states[j].pcs[steps[j].t].to
  {
    FilledStays(states, steps, i + 1, j);
    assert states[i].pcs[steps[i].t].to in states[i + 1].filled;
    HistoryKeepsInv(states, steps, j);
    assert Sound(states[j], states[j].pcs[steps[j].t].to);
  }

  /** First come, first served: what has left the queue is always a beginning of what has joined it. */
  lemma ServedInOrder(states: seq<State>, steps: seq<Step>, n: nat)
    requires IsHistory(states, steps) && n < |states|
    ensures states[n].served <= states[n].queued && Distinct(states[n].queued)
  {
    HistoryKeepsInv(states, steps, n);
  }

  /** A request that still waits is queued, filled, or about to be filled: cancelling another never loses it. */
  lemma WaiterIsRemembered(states: seq<State>, steps: seq<Step>, n: nat, t: Tid)
    requires IsHistory(states, steps) && n < |states| && IsWaiter(states[n], t)
    ensures t in states[n].waiters || t in states[n].slots || exists u :: IsSender(states[n], u) && states[n].pcs[u].to == t
  {
    HistoryKeepsInv(states, steps, n);
    assert SentTo(states[n], t) || t in states[n].waiters || t in states[n].slots;
  }

  // ---- Forwarding through cancelled waiters ----

  ghost predicate Reaches(s: State, t: State) {
    exists states: seq<State>, steps: seq<Step> :: IsRun(states, steps) && states[0] == s && states[|steps|] == t
  }

  lemma ReachesItself(s: State)
    ensures Reaches(s, s)
  {
    var states: seq<State>, steps: seq<Step> := [s], [];
    assert IsRun(states, steps) && states[0] == s && states[|steps|] == s;
  }

  lemma StepThenReaches(s: State, step: Step, t: State)
    requires Enabled(s, step) && Reaches(Apply(s, step), t)
    ensures Reaches(s, t)
  {
    var states, steps :| IsRun(states, steps) && states[0] == Apply(s, step) && states[|steps|] == t;
    var states', steps' := [s] + states, [step] + steps;
    assert IsRun(states', steps') && states'[0] == s && states'[|steps'|] == t;
  }

  lemma ReachesThrough(s: State, t: State, u: State)
    requires Reaches(s, t) && Reaches(t, u)
    ensures Reaches(s, u)
  {
    var states, steps :| IsRun(states, steps) && states[0] == s && states[|steps|] == t;
    RunThenReaches(states, steps, 0, u);
  }

  lemma {:induction false} RunThenReaches(states: seq<State>, steps: seq<Step>, n: nat, u: State)
    requires IsRun(states, steps) && n < |states| && Reaches(states[|steps|], u)
    ensures Reaches(states[n], u)
    decreases |steps| - n
  {
    if n < |steps| {
      RunThenReaches(states, steps, n + 1, u);
      StepThenReaches(states[n], steps[n], u);
    }
  }

  /** How many cancelled waiters stand before the first live one. */
  function Cancelled(s: State, ws: seq<Tid>): nat {
    if ws == [] || !At(s, ws[0], Forwarding) then 0 else 1 + Cancelled(s, ws[1..])
  }

  lemma {:induction false} CancelledBound(s: State, ws: seq<Tid>)
    ensures Cancelled(s, ws) <= |ws|
    ensures Cancelled(s, ws) < |ws| ==> !At(s, ws[Cancelled(s, ws)], Forwarding)
    ensures forall i :: 0 <= i < Cancelled(s, ws) ==> At(s, ws[i], Forwarding)
  {
    if ws != [] && At(s, ws[0], Forwarding) {
      CancelledBound(s, ws[1..]);
    }
  }

  lemma {:induction false} CancelledSame(s: State, s': State, ws: seq<Tid>)
    requires forall w :: w in ws ==> (At(s, w, Forwarding) <==> At(s', w, Forwarding))
    ensures Cancelled(s', ws) == Cancelled(s, ws)
  {
    if ws != [] && At(s, ws[0], Forwarding) {
      CancelledSame(s, s', ws[1..]);
    }
  }

  ghost predicate CanPut(s: State, t: Tid) {
    QueueInv(s) && !s.leaked && t in s.pcs && s.pcs[t].Putting?
  }

  /** The first waiter's slot is filled. */
  function Served(s: State, t: Tid): State
    requires s.waiters != [] && t in s.pcs && s.pcs[t].Putting?
  {
    var w := s.waiters[0];
    s.(waiters := s.waiters[1..], served := s.served + [w], slots := s.slots[w := s.pcs[t].conn],
       filled := s.filled + {w}, pcs := s.pcs - {t})
  }

  /** The first waiter, being cancelled, has taken the connection and is about to put it back itself. */
  function PassedOn(s: State, t: Tid): State
    requires s.waiters != [] && t in s.pcs && s.pcs[t].Putting?
  {
    Served(s, t).(slots := s.slots, pcs := (s.pcs - {t})[s.waiters[0] := Putting(s.pcs[t].conn)])
  }

  lemma ServedInTwoSteps(s: State, t: Tid)
    requires CanPut(s, t) && s.waiters != []
    ensures Enabled(s, LockedPut(t)) && Enabled(Apply(s, LockedPut(t)), Fill(t))
    ensures Apply(Apply(s, LockedPut(t)), Fill(t)) == Served(s, t)
  {
    assert s.waiters[0] in s.waiters;
  }

  lemma ServedIsReached(s: State, t: Tid, u: State)
    requires CanPut(s, t) && s.waiters != [] && Reaches(Served(s, t), u)
    ensures Reaches(s, u)
  {
    ServedInTwoSteps(s, t);
    StepThenReaches(Apply(s, LockedPut(t)), Fill(t), u);
    StepThenReaches(s, LockedPut(t), u);
  }

  lemma ServedKeepsQueue(s: State, t: Tid)
    requires CanPut(s, t) && s.waiters != []
    ensures QueueInv(Served(s, t)) && !Served(s, t).leaked
  {
    ServedInTwoSteps(s, t);
    QueueStep(s, LockedPut(t));
    QueueStep(Apply(s, LockedPut(t)), Fill(t));
  }

  lemma PassingOn(s: State, t: Tid)
    requires CanPut(s, t) && s.waiters != [] && At(s, s.waiters[0], Forwarding)
    ensures var s1 := Served(s, t); Enabled(s1, Forward(s.waiters[0])) && Apply(s1, Forward(s.waiters[0])) == PassedOn(s, t)
    ensures CanPut(PassedOn(s, t), s.waiters[0])
  {
    var w, s1 := s.waiters[0], Served(s, t);
    assert w in s.waiters && w !in s.slots && w != t;
    assert s1.slots - {w} == s.slots;
    assert Apply(s1, Forward(w)) == PassedOn(s, t);
    ServedKeepsQueue(s, t);
    QueueStep(s1, Forward(w));
  }

  lemma CancelledAfterPassing(s: State, t: Tid)
    requires CanPut(s, t) && s.waiters != [] && At(s, s.waiters[0], Forwarding)
    ensures Cancelled(PassedOn(s, t), s.waiters[1..]) == Cancelled(s, s.waiters) - 1
  {
    WaitersInQueue(s);
    forall w | w in s.waiters[1..]
      ensures At(s, w, Forwarding) <==> At(PassedOn(s, t), w, Forwarding)
    {
      assert w in s.waiters && w != s.waiters[0] && IsWaiter(s, w);
    }
    CancelledSame(s, PassedOn(s, t), s.waiters[1..]);
  }

  /** Where a connection put back ends up: the first live waiter, else the idle channel, else closed. */
  ghost predicate Delivered(s: State, c: Conn, s': State) {
    var k := Cancelled(s, s.waiters);
    if k < |s.waiters| then
      && At(s, s.waiters[k], Waiting)
      && s'.waiters == s.waiters[k + 1..] && s'.slots == s.slots[s.waiters[k] := c]
      && s'.idle == s.idle && s'.dropped == s.dropped && s'.closed == s.closed
    else if |s.idle| < s.config.maxIdleCnt then
      && s'.waiters == [] && s'.slots == s.slots
      && s'.idle == s.idle + [IdleConn(c, s.now)] && s'.dropped == s.dropped && s'.closed == s.closed
    else
      && s'.waiters == [] && s'.slots == s.slots
      && s'.idle == s.idle && s'.dropped == s.dropped + {c} && s'.closed == s.closed + {c}
  }

  /**
    The chain of forwards ends: every hop takes one request off the queue, and the connection comes to
    rest as `Delivered` says, with everything else as it was.
   */
  lemma {:induction false} ForwardingEnds(s: State, t: Tid) returns (s': State)
    requires CanPut(s, t)
    ensures Reaches(s, s') && Delivered(s, s.pcs[t].conn, s')
    ensures s'.cnt == s.cnt && s'.held == s.held && s'.created == s.created
    decreases |s.waiters|
  {
    CancelledBound(s, s.waiters);
    if s.waiters == [] {
      s' := Apply(s, LockedPut(t));
      ReachesItself(s');
      StepThenReaches(s, LockedPut(t), s');
    } else {
      var w := s.waiters[0];
      assert w in s.waiters && IsWaiter(s, w);
      if At(s, w, Waiting) {
        s' := Served(s, t);
        ReachesItself(s');
      } else {
        PassingOn(s, t);
        CancelledAfterPassing(s, t);
        var next := PassedOn(s, t);
        s' := ForwardingEnds(next, w);
        DeliveredFurther(s, t, s');
        StepThenReaches(Served(s, t), Forward(w), s');
      }
      ServedIsReached(s, t, s');
    }
  }

  lemma DeliveredFurther(s: State, t: Tid, s': State)
    requires CanPut(s, t) && s.waiters != [] && At(s, s.waiters[0], Forwarding)
    requires Cancelled(PassedOn(s, t), s.waiters[1..]) == Cancelled(s, s.waiters) - 1
    requires Delivered(PassedOn(s, t), s.pcs[t].conn, s')
    ensures Delivered(s, s.pcs[t].conn, s')
  {
    CancelledBound(s, s.waiters);
    var k := Cancelled(s, s.waiters);
    if k < |s.waiters| {
      assert s.waiters[1..][k - 1] == s.waiters[k] && s.waiters[1..][k..] == s.waiters[k + 1..];
      assert s.waiters[k] in s.waiters && IsWaiter(s, s.waiters[k]);
    }
  }

  /** The steps that move connection `c` on from a Put: the Put's own, and a cancelled waiter's forwarding. */
  predicate ChainStep(s: State, step: Step, c: Conn) {
    Enabled(s, step)
    && match step
       case LockedPut(t) => s.pcs[t].conn == c
       case Fill(t) => s.pcs[t].conn == c
       case Forward(t) => s.slots[t] == c
       case _ => false
  }

  ghost predicate IsChain(states: seq<State>, steps: seq<Step>, c: Conn) {
    IsRun(states, steps) && forall i :: 0 <= i < |steps| ==> ChainStep(states[i], steps[i], c)
  }

  ghost predicate ChainIsOver(s: State, c: Conn) {
    forall step :: !ChainStep(s, step, c)
  }

  /** The only steps that can move a connection on are those of the place it is in. */
  lemma ChainStepIs(s: State, step: Step, p: Place, c: Conn)
    requires NoneShared(s) && Is(s, p, c) && ChainStep(s, step, c)
    ensures match p
            case InHand(t) => step == (if s.pcs[t].Putting? then LockedPut(t) else Fill(t))
            case InSlot(t) => step == Forward(t) && At(s, t, Forwarding)
            case _ => false
  {
    var q := if step.Forward? then InSlot(step.t) else InHand(step.t);
    assert Is(s, q, c);
  }

  lemma ChainStopsAt(s: State, p: Place, c: Conn)
    requires NoneShared(s) && Is(s, p, c) && (p.InSlot? ==> !At(s, p.t, Forwarding)) && !p.InHand?
    ensures ChainIsOver(s, c)
  {
    forall step
      ensures !ChainStep(s, step, c)
    {
      if ChainStep(s, step, c) {
        ChainStepIs(s, step, p, c);
      }
    }
  }

  /** The steps move on the connection that Put `t` starts with. */
  ghost predicate IsChainOf(states: seq<State>, steps: seq<Step>, t: Tid) {
    |states| > 0 && Inv(states[0]) && CanPut(states[0], t) && IsChain(states, steps, states[0].pcs[t].conn)
  }

  /** Without a waiter the chain is one step long. */
  lemma ChainWithoutWaiters(states: seq<State>, steps: seq<Step>, t: Tid)
    requires IsChainOf(states, steps, t) && states[0].waiters == []
    ensures |steps| <= 1
    ensures |steps| == 1 ==> Delivered(states[0], states[0].pcs[t].conn, states[1])
  {
    var s := states[0];
    var c := s.pcs[t].conn;
    if |steps| > 0 {
      FirstChainStep(states, steps, t);
      StepKeepsInv(s, LockedPut(t));
      var p := if |s.idle| < s.config.maxIdleCnt then InIdle(|s.idle|) else Dropped;
      assert Is(states[1], p, c);
      ChainStopsAt(states[1], p, c);
    }
  }

  lemma FirstChainStep(states: seq<State>, steps: seq<Step>, t: Tid)
    requires IsChainOf(states, steps, t) && |steps| > 0
    ensures steps[0] == LockedPut(t) && states[1] == Apply(states[0], LockedPut(t))
  {
    assert Is(states[0], InHand(t), states[0].pcs[t].conn);
    ChainStepIs(states[0], steps[0], InHand(t), states[0].pcs[t].conn);
  }

  /** With a waiter, the second step fills its slot. */
  lemma SecondChainStep(states: seq<State>, steps: seq<Step>, t: Tid)
    requires IsChainOf(states, steps, t) && states[0].waiters != []
    requires |steps| > 1
    ensures states[2] == Served(states[0], t) && Inv(states[2])
  {
    var s, c := states[0], states[0].pcs[t].conn;
    FirstChainStep(states, steps, t);
    StepKeepsInv(s, LockedPut(t));
    assert Is(states[1], InHand(t), c);
    ChainStepIs(states[1], steps[1], InHand(t), c);
    ServedInTwoSteps(s, t);
    StepKeepsInv(states[1], Fill(t));
  }

  /** And the third, if there is one, is the cancelled waiter's own Put. */
  lemma ThirdChainStep(states: seq<State>, steps: seq<Step>, t: Tid)
    requires IsChainOf(states, steps, t) && states[0].waiters != []
    requires |steps| > 2
    ensures At(states[0], states[0].waiters[0], Forwarding)
    ensures states[3] == PassedOn(states[0], t) && Inv(states[3]) && CanPut(states[3], states[0].waiters[0])
  {
    var s, w, c := states[0], states[0].waiters[0], states[0].pcs[t].conn;
    SecondChainStep(states, steps, t);
    assert Is(states[2], InSlot(w), c);
    ChainStepIs(states[2], steps[2], InSlot(w), c);
    assert w in s.waiters && IsWaiter(s, w);
    assert At(s, w, Forwarding);
    PassingOn(s, t);
    StepKeepsInv(states[2], Forward(w));
  }

  /**
    However a chain is cut off, it is short: three steps for each cancelled waiter in front and two more.
    And once it can go no further the connection has been delivered.
   */
  lemma {:induction false} EveryChainDelivers(states: seq<State>, steps: seq<Step>, t: Tid)
    requires IsChainOf(states, steps, t)
    ensures |steps| <= 3 * Cancelled(states[0], states[0].waiters) + 2
    ensures ChainIsOver(states[|steps|], states[0].pcs[t].conn)
            ==> Delivered(states[0], states[0].pcs[t].conn, states[|steps|])
    decreases |steps|
  {
    var s, c := states[0], states[0].pcs[t].conn;
    CancelledBound(s, s.waiters);
    if s.waiters == [] {
      ChainWithoutWaiters(states, steps, t);
      assert ChainStep(s, LockedPut(t), c);
    } else if |steps| <= 2 {
      ShortChain(states, steps, t);
    } else {
      var w := s.waiters[0];
      ThirdChainStep(states, steps, t);
      CancelledAfterPassing(s, t);
      RestIsChain(states, steps, t, w);
      EveryChainDelivers(states[3..], steps[3..], w);
      if ChainIsOver(states[|steps|], c) {
        DeliveredFurther(s, t, states[|steps|]);
      }
    }
  }

  lemma RestIsChain(states: seq<State>, steps: seq<Step>, t: Tid, w: Tid)
    requires IsChainOf(states, steps, t) && |steps| > 2 && states[0].waiters != []
    requires states[3] == PassedOn(states[0], t) && w == states[0].waiters[0] && Inv(states[3]) && CanPut(states[3], w)
    ensures IsChainOf(states[3..], steps[3..], w)
  {
    assert states[3..][0] == states[3];
  }

  lemma ShortChain(states: seq<State>, steps: seq<Step>, t: Tid)
    requires IsChainOf(states, steps, t) && states[0].waiters != [] && |steps| <= 2
    ensures |steps| < 2 ==> !ChainIsOver(states[|steps|], states[0].pcs[t].conn)
    ensures |steps| == 2 && ChainIsOver(states[2], states[0].pcs[t].conn)
            ==> Delivered(states[0], states[0].pcs[t].conn, states[2])
  {
    var s, w, c := states[0], states[0].waiters[0], states[0].pcs[t].conn;
    ServedInTwoSteps(s, t);
    assert ChainStep(s, LockedPut(t), c);
    if |steps| == 1 {
      FirstChainStep(states, steps, t);
      assert ChainStep(states[1], Fill(t), c);
    } else if |steps| == 2 {
      SecondChainStep(states, steps, t);
      assert w in s.waiters && IsWaiter(s, w);
      if At(s, w, Forwarding) {
        PassingOn(s, t);
        assert ChainStep(states[2], Forward(w), c);
      }
    }
  }

  // ---- Hand-offs in any interleaving ----

  /** Step `i` takes a request off the queue, for a Put of a caller or of a forwarder alike. */
  predicate IsHandOff(s: State, step: Step) {
    step.LockedPut? && s.waiters != []
  }

  predicate IsJoin(s: State, step: Step) {
    step.LockedGet? && s.cnt >= s.config.maxCnt
  }

  function HandOffs(states: seq<State>, steps: seq<Step>, m: nat, n: nat): nat
    requires |states| == |steps| + 1 && m <= n <= |steps|
    decreases n
  {
    if m == n then 0 else HandOffs(states, steps, m, n - 1) + if IsHandOff(states[n - 1], steps[n - 1]) then 1 else 0
  }

  function Joins(states: seq<State>, steps: seq<Step>, m: nat, n: nat): nat
    requires |states| == |steps| + 1 && m <= n <= |steps|
    decreases n
  {
    if m == n then 0 else Joins(states, steps, m, n - 1) + if IsJoin(states[n - 1], steps[n - 1]) then 1 else 0
  }

  /**
    However the callers interleave, each hand-off is paid for by a request: between any two moments
    there are no more of them than requests that were waiting or joined, so no chain of forwards
    goes on for ever.
   */
  lemma {:induction false} HandOffsAreBounded(states: seq<State>, steps: seq<Step>, m: nat, n: nat)
    requires IsRun(states, steps) && m <= n <= |steps|
    ensures HandOffs(states, steps, m, n) + |states[n].waiters| == |states[m].waiters| + Joins(states, steps, m, n)
    decreases n - m
  {
    if m < n {
      HandOffsAreBounded(states, steps, m, n - 1);
      QueueLengthStep(states[n - 1], steps[n - 1]);
    }
  }

  lemma QueueLengthStep(s: State, step: Step)
    requires Enabled(s, step)
    ensures |Apply(s, step).waiters| + (if IsHandOff(s, step) then 1 else 0)
         == |s.waiters| + if IsJoin(s, step) then 1 else 0
  {
  }
}
