/** What holds in every run of the lock protocol. */
module LockTheorems {
  import opened RedisScripts
  import opened LockProtocol

  ghost predicate IsRun(states: seq<State>, steps: seq<Step>) {
    |states| == |steps| + 1
    && forall i :: 0 <= i < |steps| ==> Enabled(states[i], steps[i]) && states[i + 1] == Apply(states[i], steps[i])
  }

  ghost predicate IsHistory(states: seq<State>, steps: seq<Step>) {
    IsRun(states, steps) && states[0] == Init
  }

  lemma {:induction false} RunKeepsInv(states: seq<State>, steps: seq<Step>, n: nat)
    requires IsRun(states, steps) && Inv(states[0]) && n < |states|
    ensures Inv(states[n])
  {
    if n > 0 {
      RunKeepsInv(states, steps, n - 1);
      StepKeepsInv(states[n - 1], steps[n - 1]);
    }
  }

  /** The caller has the handle, has not called Unlock, and its lease is not over. */
  ghost predicate Holding(s: State, id: nat) {
    id in s.calls && s.calls[id].phase.Held? && s.calls[id].phase.lease.Live(s.now) && !s.calls[id].Spoiled()
  }

  /** At every point of every history, a caller inside its lease has its token on the server for the whole lease. */
  lemma LeaseIsBacked(states: seq<State>, steps: seq<Step>, n: nat, id: nat)
    requires IsHistory(states, steps) && n < |states| && Holding(states[n], id)
    ensures var s := states[n]; var c := s.calls[id];
            HeldBy(s.keys, s.now, c.key, c.token) && s.keys[c.key].deadline.Covers(c.phase.lease)
  {
    RunKeepsInv(states, steps, n);
  }

  /** Mutual exclusion: two callers are never inside their leases on one key at the same time. */
  lemma MutualExclusion(states: seq<State>, steps: seq<Step>, n: nat, i: nat, j: nat)
    requires IsHistory(states, steps) && n < |states|
    requires Holding(states[n], i) && Holding(states[n], j) && states[n].calls[i].key == states[n].calls[j].key
    ensures i == j
  {
    RunKeepsInv(states, steps, n);
  }

  /** No two handles of a history share a token. */
  lemma TokensStayDistinct(states: seq<State>, steps: seq<Step>, n: nat, i: nat, j: nat)
    requires IsHistory(states, steps) && n < |states|
    requires i in states[n].calls && j in states[n].calls && i != j
    ensures states[n].calls[i].token != states[n].calls[j].token
  {
    RunKeepsInv(states, steps, n);
  }

  /**
    A stale handle is harmless: while call `j` has the key, whatever another call `i` sent for that key
    changes nothing when it finally runs, its Unlock and Refresh report that the lock is not held, and
    its lock attempts are refused.
   */
  lemma StaleHandleIsHarmless(states: seq<State>, steps: seq<Step>, n: nat, r: Request, j: nat)
    requires IsHistory(states, steps) && n < |states| && r in states[n].sent
    requires j in states[n].calls && r.id != j && r.command.key == states[n].calls[j].key
    requires HeldBy(states[n].keys, states[n].now, r.command.key, states[n].calls[j].token)
    ensures var (after, reply) := Run(states[n].keys, states[n].now, r.command);
            after == states[n].keys
            && (if r.command.Acquire? then reply == Refused else OutcomeOf(reply) == LockNotHeld)
  {
    RunKeepsInv(states, steps, n);
    assert SentBy(states[n], r);
  }

  /**
    Why a refreshed TryLock handle is left out of mutual exclusion: when its holder's Refresh runs, the
    key is free for everyone at once if and only if the handle's expiration is 0; otherwise the holder
    has the key for the full expiration again.
   */
  lemma RefreshFreesKeyIff(states: seq<State>, steps: seq<Step>, n: nat, id: nat)
    requires IsRun(states, steps) && n < |steps| && id in states[n].calls
    requires steps[n].Execute? && steps[n].request.command == RenewOf(states[n].calls[id])
    requires HeldBy(states[n].keys, states[n].now, states[n].calls[id].key, states[n].calls[id].token)
    ensures var s, s', c := states[n], states[n + 1], states[n].calls[id];
            && (Free(s'.keys, s'.now, c.key) <==> c.HandleExpiration() == 0)
            && (c.HandleExpiration() > 0 ==> s'.keys == s.keys[c.key := Entry(c.token, At(s.now + c.HandleExpiration()))])
  {
  }

  /** What a step can do to the entry of one call: leave it, or store it anew for a full expiration. */
  lemma EntryChange(s: State, step: Step, key: string, id: nat)
    requires Inv(s) && Enabled(s, step) && id in s.calls
    requires var s' := Apply(s, step); key in s'.keys && s'.keys[key].token == s.calls[id].token
    ensures var s' := Apply(s, step);
            || (key in s.keys && s'.keys[key] == s.keys[key])
            || (step.Execute? && step.request.id == id
                && s'.keys[key].deadline == LeaseFrom(s.now, s.calls[id].expiration))
  {
    if step.Execute? {
      ExecuteCases(s, step.request);
    }
  }

  lemma EntryChangeInHistory(states: seq<State>, steps: seq<Step>, n: nat, key: string, id: nat)
    requires IsHistory(states, steps) && n < |steps| && id in states[n].calls
    requires key in states[n + 1].keys && states[n + 1].keys[key].token == states[n].calls[id].token
    ensures || (key in states[n].keys && states[n + 1].keys[key] == states[n].keys[key])
            || (steps[n].Execute? && steps[n].request.id == id
                && states[n + 1].keys[key].deadline == LeaseFrom(states[n].now, states[n].calls[id].expiration))
  {
    RunKeepsInv(states, steps, n);
    EntryChange(states[n], steps[n], key, id);
  }

  /** Every stored deadline is at most one expiration away. */
  lemma DeadlineIsBounded(states: seq<State>, steps: seq<Step>, n: nat, key: string, id: nat)
    requires IsHistory(states, steps) && n < |states| && id in states[n].calls
    requires key in states[n].keys && states[n].keys[key].token == states[n].calls[id].token
    ensures LeaseFrom(states[n].now, states[n].calls[id].expiration).Covers(states[n].keys[key].deadline)
    ensures states[n].keys[key].deadline.Never? ==> states[n].calls[id].via.Try? && states[n].calls[id].expiration == 0
  {
    RunKeepsInv(states, steps, n);
    OwnerIsUnique(states[n], id);
    assert Owns(states[n], key, id);
  }

  lemma CallsStay(s: State, step: Step, id: nat)
    requires Enabled(s, step) && id in s.calls
    ensures var s' := Apply(s, step);
            id in s'.calls && s'.calls[id].token == s.calls[id].token && s'.calls[id].key == s.calls[id].key
            && s'.calls[id].expiration == s.calls[id].expiration && s'.calls[id].via == s.calls[id].via
            && s.now <= s'.now
  {
  }

  lemma {:induction false} CallsStayForLong(states: seq<State>, steps: seq<Step>, m: nat, n: nat, id: nat)
    requires IsRun(states, steps) && m <= n < |states| && id in states[m].calls
    ensures id in states[n].calls && states[n].calls[id].token == states[m].calls[id].token
    ensures states[n].calls[id].key == states[m].calls[id].key
    ensures states[n].calls[id].expiration == states[m].calls[id].expiration
    ensures states[m].now <= states[n].now
    decreases n - m
  {
    if m < n {
      CallsStayForLong(states, steps, m, n - 1, id);
      CallsStay(states[n - 1], steps[n - 1], id);
    }
  }

  /**
    However often a call's requests run, re-run or run late, the deadline stored for its token never
    moves back, not even across an expiry and a re-acquisition in between.
   */
  lemma {:induction false} DeadlineNeverMovesBack(
      states: seq<State>, steps: seq<Step>, m: nat, n: nat, key: string, id: nat)
    requires IsHistory(states, steps) && m <= n < |states| && id in states[m].calls
    requires key in states[m].keys && states[m].keys[key].token == states[m].calls[id].token
    requires key in states[n].keys && states[n].keys[key].token == states[m].calls[id].token
    ensures states[n].keys[key].deadline.Covers(states[m].keys[key].deadline)
    decreases n - m
  {
    if m < n {
      CallsStayForLong(states, steps, m, n - 1, id);
      DeadlineIsBounded(states, steps, m, key, id);
      EntryChangeInHistory(states, steps, n - 1, key, id);
      if key in states[n - 1].keys && states[n].keys[key] == states[n - 1].keys[key] {
        DeadlineNeverMovesBack(states, steps, m, n - 1, key, id);
      }
    }
  }

  /**
    A crashed client: none of the call's requests runs any more.  Its key is free again one expiration
    later at the latest.
   */
  lemma {:induction false} CrashedClientFreesKey(states: seq<State>, steps: seq<Step>, m: nat, n: nat, id: nat)
    requires IsHistory(states, steps) && m <= n < |states| && id in states[m].calls
    requires states[m].calls[id].expiration > 0
    requires forall i :: m <= i < n && steps[i].Execute? ==> steps[i].request.id != id
    requires states[m].now + states[m].calls[id].expiration <= states[n].now
    ensures forall key :: !HeldBy(states[n].keys, states[n].now, key, states[m].calls[id].token)
  {
    forall key
      ensures !HeldBy(states[n].keys, states[n].now, key, states[m].calls[id].token)
    {
      if HeldBy(states[n].keys, states[n].now, key, states[m].calls[id].token) {
        EntryIsOld(states, steps, m, n, key, id);
        DeadlineIsBounded(states, steps, m, key, id);
      }
    }
  }

  lemma {:induction false} EntryIsOld(states: seq<State>, steps: seq<Step>, m: nat, n: nat, key: string, id: nat)
    requires IsHistory(states, steps) && m <= n < |states| && id in states[m].calls
    requires forall i :: m <= i < n && steps[i].Execute? ==> steps[i].request.id != id
    requires key in states[n].keys && states[n].keys[key].token == states[m].calls[id].token
    ensures key in states[m].keys && states[m].keys[key] == states[n].keys[key]
    decreases n - m
  {
    if m < n {
      CallsStayForLong(states, steps, m, n - 1, id);
      EntryChangeInHistory(states, steps, n - 1, key, id);
      EntryIsOld(states, steps, m, n - 1, key, id);
    }
  }

  /** Step `i` ran the request and answered OK, and right after it the server held the call's token. */
  ghost predicate GrantedAt(states: seq<State>, steps: seq<Step>, i: nat, request: Request, c: Call) {
    i < |steps| && |states| == |steps| + 1 && steps[i] == Execute(request)
    && request.command == AcquireOf(c) && Run(states[i].keys, states[i].now, request.command).1 == Granted
    && HeldBy(states[i + 1].keys, states[i + 1].now, c.key, c.token)
  }

  lemma GrantIsStored(s: State, r: Request)
    requires Inv(s) && r in s.sent && r.command.Acquire? && Run(s.keys, s.now, r.command).1 == Granted
    ensures r.id in s.calls && r.command == AcquireOf(s.calls[r.id])
    ensures HeldBy(Run(s.keys, s.now, r.command).0, s.now, r.command.key, r.command.token)
  {
    assert SentBy(s, r);
  }

  lemma AnswersComeFromRuns(s: State, step: Step, a: Answer)
    requires Enabled(s, step) && a in Apply(s, step).answers && a !in s.answers
    ensures step == Execute(a.request) && a.reply == Run(s.keys, s.now, a.request.command).1
    ensures Apply(s, step).keys == Run(s.keys, s.now, a.request.command).0
    ensures Apply(s, step).now == s.now && Apply(s, step).calls == s.calls && a.request in s.sent
  {
  }

  lemma NewGrantIsStored(states: seq<State>, steps: seq<Step>, i: nat, a: Answer)
    requires IsHistory(states, steps) && i < |steps| && a in states[i + 1].answers && a !in states[i].answers
    requires a.request.command.Acquire? && a.reply == Granted
    ensures a.request.id in states[i + 1].calls
    ensures GrantedAt(states, steps, i, a.request, states[i + 1].calls[a.request.id])
  {
    RunKeepsInv(states, steps, i);
    AnswersComeFromRuns(states[i], steps[i], a);
    GrantIsStored(states[i], a.request);
  }

  /** An OK in the air was issued by a run of its own request, after which the server held the call's token. */
  lemma {:induction false} GrantWasStored(states: seq<State>, steps: seq<Step>, n: nat, a: Answer) returns (i: nat)
    requires IsHistory(states, steps) && n < |states| && a in states[n].answers
    requires a.request.command.Acquire? && a.reply == Granted
    ensures a.request.id in states[n].calls && i < n
    ensures GrantedAt(states, steps, i, a.request, states[n].calls[a.request.id])
  {
    if a in states[n - 1].answers {
      i := GrantWasStored(states, steps, n - 1, a);
      CallsStay(states[n - 1], steps[n - 1], a.request.id);
    } else {
      i := n - 1;
      NewGrantIsStored(states, steps, i, a);
    }
  }

  /** A handle a caller got came from an answer OK, and the step that issued it left the handle's token on the server. */
  lemma {:induction false} HandleWasStored(states: seq<State>, steps: seq<Step>, n: nat, id: nat) returns (i: nat, a: Answer)
    requires IsHistory(states, steps) && n < |states| && id in states[n].calls
    requires states[n].calls[id].phase.Held? || states[n].calls[id].phase.Released?
    ensures a in states[n].answers && a.request.id == id && a.reply == Granted
    ensures i < n && GrantedAt(states, steps, i, a.request, states[n].calls[id])
  {
    var s, step := states[n - 1], steps[n - 1];
    if step.TakeGrant? && step.id == id {
      a := step.answer;
      i := GrantWasStored(states, steps, n - 1, a);
    } else {
      i, a := HandleWasStored(states, steps, n - 1, id);
    }
    CallsStay(s, step, id);
    AnswersStay(s, step, a);
  }

  lemma AnswersStay(s: State, step: Step, a: Answer)
    requires Enabled(s, step) && a in s.answers
    ensures a in Apply(s, step).answers
  {
  }

  /** The lease an answer gives a call: the expiration asked for, from when the answered request was sent. */
  predicate LeaseBy(c: Call, a: Answer) {
    && c.phase.Held?
    && (if a.request.command.Acquire?
        then a.request.command == Acquire(c.via, c.key, c.token, c.expiration) && a.reply == Granted
        else a.request.command == Renew(c.key, c.token, if c.via.Try? then 0 else c.expiration) && a.reply == Number(1))
    && c.phase.lease == if a.request.command.expiration == 0 then Never
                        else At(a.request.sentAt + a.request.command.expiration)
  }

  predicate GivesLease(step: Step, id: nat) {
    (step.TakeGrant? || step.TakeRenewal?) && step.id == id
  }

  lemma NewLease(s: State, step: Step, id: nat)
    requires RequestsInv(s) && Enabled(s, step) && GivesLease(step, id)
    ensures LeaseBy(Apply(s, step).calls[id], step.answer) && step.answer in s.answers && step.answer.request.id == id
  {
    assert SentBy(s, step.answer.request);
  }

  lemma OldLease(s: State, step: Step, id: nat)
    requires Enabled(s, step) && !GivesLease(step, id) && id in Apply(s, step).calls && Apply(s, step).calls[id].phase.Held?
    ensures id in s.calls && Apply(s, step).calls[id].(refreshed := false) == s.calls[id].(refreshed := false)
  {
  }

  /** What a caller counts on, at every point of every history, is what such an answer gave it. */
  lemma {:induction false} LeaseInWords(states: seq<State>, steps: seq<Step>, n: nat, id: nat) returns (a: Answer)
    requires IsHistory(states, steps) && n < |states| && id in states[n].calls && states[n].calls[id].phase.Held?
    ensures a in states[n].answers && a.request.id == id && LeaseBy(states[n].calls[id], a)
  {
    var s, step := states[n - 1], steps[n - 1];
    if GivesLease(step, id) {
      a := step.answer;
      RunKeepsInv(states, steps, n - 1);
      NewLease(s, step, id);
    } else {
      OldLease(s, step, id);
      a := LeaseInWords(states, steps, n - 1, id);
    }
    AnswersStay(s, step, a);
  }

  /** Mutual exclusion once more, with every condition written out. */
  lemma LeasesDoNotOverlap(states: seq<State>, steps: seq<Step>, n: nat, i: nat, j: nat)
    requires IsHistory(states, steps) && n < |states| && i in states[n].calls && j in states[n].calls
    requires forall id :: id == i || id == j ==>
               var c := states[n].calls[id];
               && c.phase.Held? && (c.phase.lease == Never || states[n].now < c.phase.lease.time)
               && (c.refreshed ==> c.via.Retry? && c.expiration > 0)
    requires states[n].calls[i].key == states[n].calls[j].key
    ensures i == j
  {
    MutualExclusion(states, steps, n, i, j);
  }

  // ---- After Unlock ----

  /** Step `k` runs one of the call's lock attempts and grants it. */
  ghost predicate GrantsAt(states: seq<State>, steps: seq<Step>, k: nat, id: nat) {
    k < |steps| && |states| == |steps| + 1 && steps[k].Execute? && steps[k].request.id == id
    && steps[k].request.command.Acquire? && Run(states[k].keys, states[k].now, steps[k].request.command).1 == Granted
  }

  ghost predicate HeldByCall(s: State, id: nat) {
    id in s.calls && HeldBy(s.keys, s.now, s.calls[id].key, s.calls[id].token)
  }

  /** A token comes to be held only by a grant to its own call. */
  lemma HeldByGrant(s: State, step: Step, id: nat)
    requires Inv(s) && Enabled(s, step) && id in s.calls && !HeldByCall(s, id) && HeldByCall(Apply(s, step), id)
    ensures step.Execute? && step.request.id == id && step.request.command.Acquire?
    ensures Run(s.keys, s.now, step.request.command).1 == Granted
  {
    CallsStay(s, step, id);
    EntryChange(s, step, s.calls[id].key, id);
    if step.Execute? {
      ExecuteCases(s, step.request);
    }
  }

  lemma HeldByGrantInHistory(states: seq<State>, steps: seq<Step>, k: nat, id: nat)
    requires IsHistory(states, steps) && k < |steps| && id in states[k].calls
    requires !HeldByCall(states[k], id) && HeldByCall(states[k + 1], id)
    ensures GrantsAt(states, steps, k, id)
  {
    RunKeepsInv(states, steps, k);
    HeldByGrant(states[k], steps[k], id);
  }

  lemma HeldAfterGrant(states: seq<State>, steps: seq<Step>, k: nat, id: nat)
    requires IsHistory(states, steps) && GrantsAt(states, steps, k, id)
    ensures HeldByCall(states[k + 1], id)
  {
    RunKeepsInv(states, steps, k);
    GrantIsStored(states[k], steps[k].request);
  }

  lemma {:induction false} GrantBetween(states: seq<State>, steps: seq<Step>, m: nat, n: nat, id: nat) returns (k: nat)
    requires IsHistory(states, steps) && m <= n < |states| && id in states[m].calls
    requires !HeldByCall(states[m], id) && HeldByCall(states[n], id)
    ensures m <= k < n && GrantsAt(states, steps, k, id)
    decreases n - m
  {
    k := n - 1;
    if HeldByCall(states[n - 1], id) {
      k := GrantBetween(states, steps, m, n - 1, id);
    } else {
      CallsStayForLong(states, steps, m, k, id);
      HeldByGrantInHistory(states, steps, k, id);
    }
  }

  /**
    After the server has run a call's Unlock, the call's token is held again at some later moment if
    and only if one of the call's own lock attempts, sent before and still on its way, is granted then.
   */
  lemma HeldAgainIff(states: seq<State>, steps: seq<Step>, i: nat, n: nat, id: nat)
    requires IsHistory(states, steps) && i < n < |states| && id in states[i].calls
    requires steps[i].Execute? && steps[i].request.command == ReleaseOf(states[i].calls[id])
    ensures (exists j :: i < j <= n && HeldByCall(states[j], id)) <==> (exists k :: i < k < n && GrantsAt(states, steps, k, id))
  {
    CallsStay(states[i], steps[i], id);
    assert !HeldByCall(states[i + 1], id);
    if j :| i < j <= n && HeldByCall(states[j], id) {
      var k := GrantBetween(states, steps, i + 1, j, id);
      assert i < k < n && GrantsAt(states, steps, k, id);
    }
    if k :| i < k < n && GrantsAt(states, steps, k, id) {
      HeldAfterGrant(states, steps, k, id);
    }
  }

  // ---- Reaching one state from another ----

  ghost predicate Reaches(s: State, t: State) {
    exists states: seq<State>, steps: seq<Step> :: IsRun(states, steps) && states[0] == s && states[|steps|] == t
  }

  lemma ReachesItself(s: State)
    ensures Reaches(s, s)
  {
    var states: seq<State>, steps: seq<Step> := [s], [];
    assert IsRun(states, steps) && states[0] == s && states[|steps|] == s;
  }

  lemma ReachesNext(s: State, t: State, step: Step)
    requires Reaches(s, t) && Enabled(t, step)
    ensures Reaches(s, Apply(t, step))
  {
    var states, steps :| IsRun(states, steps) && states[0] == s && states[|steps|] == t;
    var states', steps' := states + [Apply(t, step)], steps + [step];
    forall i | 0 <= i < |steps'|
      ensures Enabled(states'[i], steps'[i]) && states'[i + 1] == Apply(states'[i], steps'[i])
    {
      if i < |steps| {
        assert states'[i] == states[i] && steps'[i] == steps[i] && states'[i + 1] == states[i + 1];
      } else {
        assert states'[i] == t && steps'[i] == step;
      }
    }
    assert IsRun(states', steps') && states'[0] == s && states'[|steps'|] == Apply(t, step);
  }

  lemma ReachesThrough(s: State, t: State, u: State)
    requires Reaches(s, t) && Reaches(t, u)
    ensures Reaches(s, u)
  {
    var states, steps :| IsRun(states, steps) && states[0] == s && states[|steps|] == t;
    var states', steps' :| IsRun(states', steps') && states'[0] == t && states'[|steps'|] == u;
    var all, allSteps := states[..|steps|] + states', steps + steps';
    forall i | 0 <= i < |allSteps|
      ensures Enabled(all[i], allSteps[i]) && all[i + 1] == Apply(all[i], allSteps[i])
    {
      if i < |steps| {
        assert all[i] == states[i] && allSteps[i] == steps[i] && all[i + 1] == states[i + 1];
      } else {
        assert all[i] == states'[i - |steps|] && allSteps[i] == steps'[i - |steps|];
        assert all[i + 1] == states'[i - |steps| + 1];
      }
    }
    assert IsRun(all, allSteps) && all[0] == s && all[|allSteps|] == u;
  }

  // ---- TryLock then Refresh ----

  const FirstTry := Request(0, Acquire(Try, "k", 7, 10), 0)
  const FirstRefresh := Request(0, Renew("k", 7, 0), 0)
  const SecondTry := Request(1, Acquire(Try, "k", 8, 10), 0)

  const FirstHandle := Call(Try, "k", 7, 10, Held(At(10)), false)
  const SecondHandle := Call(Try, "k", 8, 10, Held(At(10)), false)

  /** The first caller has the lock. */
  const FirstIn := State(0, map["k" := Entry(7, At(10))], map[0 := FirstHandle], {FirstTry}, {Answer(FirstTry, Granted)})

  /** Its Refresh has succeeded: the key is gone. */
  const FirstRefreshed := State(0, map[], map[0 := FirstHandle.(refreshed := true)],
    {FirstTry, FirstRefresh}, {Answer(FirstTry, Granted), Answer(FirstRefresh, Number(1))})

  /** A second caller has the lock too. */
  const BothIn := State(0, map["k" := Entry(8, At(10))],
    map[0 := FirstHandle.(refreshed := true), 1 := SecondHandle],
    {FirstTry, FirstRefresh, SecondTry},
    {Answer(FirstTry, Granted), Answer(FirstRefresh, Number(1)), Answer(SecondTry, Granted)})

  lemma FirstGetsIn()
    ensures Reaches(Init, FirstIn)
  {
    ReachesItself(Init);
    ReachesNext(Init, Init, Begin(0, Try, "k", 7, 10));
    var s1 := State(0, map[], map[0 := FirstHandle.(phase := Trying)], {}, {});
    ReachesNext(Init, s1, SendAcquire(0));
    var s2 := s1.(sent := {FirstTry});
    assert Apply(s1, SendAcquire(0)) == s2;
    ReachesNext(Init, s2, Execute(FirstTry));
    var s3 := s2.(keys := map["k" := Entry(7, At(10))], answers := {Answer(FirstTry, Granted)});
    assert Apply(s2, Execute(FirstTry)) == s3;
    ReachesNext(Init, s3, TakeGrant(0, Answer(FirstTry, Granted)));
    assert Apply(s3, TakeGrant(0, Answer(FirstTry, Granted))) == FirstIn;
  }

  lemma FirstRefreshes()
    ensures Reaches(Init, FirstRefreshed)
  {
    FirstGetsIn();
    ReachesNext(Init, FirstIn, SendRenew(0));
    var s := FirstIn.(calls := map[0 := FirstHandle.(refreshed := true)], sent := {FirstTry, FirstRefresh});
    assert Apply(FirstIn, SendRenew(0)) == s;
    ReachesNext(Init, s, Execute(FirstRefresh));
    assert Apply(s, Execute(FirstRefresh)) == FirstRefreshed;
  }

  /** TryLock for 10 seconds, one successful Refresh, and a second caller gets in at once. */
  lemma RefreshedTryLockIsNotExclusive()
    ensures Reaches(Init, BothIn)
    ensures forall id :: id in BothIn.calls ==>
              BothIn.calls[id].key == "k" && BothIn.calls[id].phase.Held? && BothIn.calls[id].phase.lease.Live(BothIn.now)
    ensures |BothIn.calls| == 2
  {
    FirstRefreshes();
    var s0 := FirstRefreshed;
    ReachesNext(Init, s0, Begin(1, Try, "k", 8, 10));
    var s1 := s0.(calls := s0.calls[1 := SecondHandle.(phase := Trying)]);
    ReachesNext(Init, s1, SendAcquire(1));
    var s2 := s1.(sent := s1.sent + {SecondTry});
    ReachesNext(Init, s2, Execute(SecondTry));
    var s3 := s2.(keys := map["k" := Entry(8, At(10))], answers := s2.answers + {Answer(SecondTry, Granted)});
    ReachesNext(Init, s3, TakeGrant(1, Answer(SecondTry, Granted)));
    assert Apply(s3, TakeGrant(1, Answer(SecondTry, Granted))) == BothIn;
  }

  // ---- A lock attempt that outlives its Unlock ----

  /** Two attempts of one `Lock` call: the first timed out on the client and is still on its way. */
  const Early := Request(0, Acquire(Retry, "k", 7, 10), 0)
  const Late := Request(0, Acquire(Retry, "k", 7, 10), 1)
  const Unlocking := Request(0, Release("k", 7), 1)

  const RetryHandle := Call(Retry, "k", 7, 10, Held(At(11)), false)

  /** The second attempt was granted. */
  const RetryIn := State(1, map["k" := Entry(7, At(11))], map[0 := RetryHandle], {Early, Late}, {Answer(Late, Granted)})

  /** The call has been unlocked and told so, and its first attempt has stored the token again. */
  const LockedAgain := State(1, map["k" := Entry(7, At(11))], map[0 := RetryHandle.(phase := Released)],
    {Early, Late, Unlocking}, {Answer(Late, Granted), Answer(Unlocking, Number(1)), Answer(Early, Granted)})

  lemma BothAttemptsAreSent(s: State)
    requires s == State(1, map[], map[0 := RetryHandle.(phase := Trying)], {Early, Late}, {})
    ensures Reaches(Init, s)
  {
    ReachesItself(Init);
    ReachesNext(Init, Init, Begin(0, Retry, "k", 7, 10));
    var s1 := State(0, map[], map[0 := RetryHandle.(phase := Trying)], {}, {});
    ReachesNext(Init, s1, SendAcquire(0));
    var s2 := s1.(sent := {Early});
    assert Apply(s1, SendAcquire(0)) == s2;
    ReachesNext(Init, s2, Tick);
    var s3 := s2.(now := 1);
    ReachesNext(Init, s3, SendAcquire(0));
    assert Apply(s3, SendAcquire(0)) == s;
  }

  lemma SecondAttemptGetsIn()
    ensures Reaches(Init, RetryIn)
  {
    var s := State(1, map[], map[0 := RetryHandle.(phase := Trying)], {Early, Late}, {});
    BothAttemptsAreSent(s);
    ReachesNext(Init, s, Execute(Late));
    var s1 := s.(keys := RetryIn.keys, answers := RetryIn.answers);
    assert Apply(s, Execute(Late)) == s1;
    ReachesNext(Init, s1, TakeGrant(0, Answer(Late, Granted)));
    assert Apply(s1, TakeGrant(0, Answer(Late, Granted))) == RetryIn;
  }

  /** Unlock has succeeded, and the key is held by the unlocked call all the same. */
  lemma UnlockedKeyIsLockedAgain()
    ensures Reaches(Init, LockedAgain) && HeldByCall(LockedAgain, 0)
    ensures LockedAgain.calls[0].phase.Released? && Answer(Unlocking, Number(1)) in LockedAgain.answers
  {
    SecondAttemptGetsIn();
    ReachesNext(Init, RetryIn, SendRelease(0));
    var s1 := RetryIn.(calls := LockedAgain.calls, sent := LockedAgain.sent);
    assert Apply(RetryIn, SendRelease(0)) == s1;
    ReachesNext(Init, s1, Execute(Unlocking));
    var s2 := s1.(keys := map[], answers := {Answer(Late, Granted), Answer(Unlocking, Number(1))});
    assert Apply(s1, Execute(Unlocking)) == s2;
    ReachesNext(Init, s2, Execute(Early));
    assert Apply(s2, Execute(Early)) == LockedAgain;
  }
}
