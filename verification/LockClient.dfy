/**
  The client's calls as the code writes them: the retry loop of `Lock`, and `TryLock`, `Unlock`, `Refresh`.
  Between any two of their actions the rest of the world may take any number of steps.  Each call is
  shown to be a path of the step system, so every theorem about histories applies to what it leaves behind.
 */
module LockClient {
  import opened RedisScripts
  import opened LockProtocol
  import opened LockTheorems

  /** What a command sent to the server comes back with. */
  datatype Fate = Answered(reply: Reply) | TimedOut | Broken

  datatype Reason = NetworkError | LockTaken | RetriesExhausted | ContextDone

  datatype LockResult = Handle(key: string, token: Token, expiration: nat) | Failure(reason: Reason)

  /** The call's fixed data and where it stands. */
  ghost predicate Stands(s: State, id: nat, via: Method, key: string, token: Token, expiration: nat, phase: Phase) {
    id in s.calls && s.calls[id] == Call(via, key, token, expiration, phase, false)
  }

  /** What the network does to a command and its answer. */
  datatype Net = Delivers | TimesOut | Breaks

  ghost predicate IsLockAnswer(a: Answer, id: nat, reply: Reply) {
    a.request.id == id && a.request.command.Acquire? && a.reply == reply
  }

  /** An attempt ended as the network had it, and an answer is one the server gave. */
  ghost predicate HappenedTo(s: State, id: nat, net: Net, fate: Fate) {
    && (net.Delivers? <==> fate.Answered?) && (net.TimesOut? <==> fate.TimedOut?)
    && (fate.Answered? ==> exists a :: a in s.answers && IsLockAnswer(a, id, fate.reply))
  }

  ghost predicate AllHappened(s: State, id: nat, net: nat -> Net, fates: seq<Fate>) {
    forall i :: 0 <= i < |fates| ==> HappenedTo(s, id, net(i), fates[i])
  }

  lemma StillHappened(s: State, t: State, id: nat, net: nat -> Net, fates: seq<Fate>)
    requires AllHappened(s, id, net, fates) && s.answers <= t.answers
    ensures AllHappened(t, id, net, fates)
  {
    forall i | 0 <= i < |fates|
      ensures HappenedTo(t, id, net(i), fates[i])
    {
      assert HappenedTo(s, id, net(i), fates[i]);
    }
  }

  lemma OneMoreHappened(s: State, t: State, id: nat, net: nat -> Net, fates: seq<Fate>, fate: Fate)
    requires AllHappened(s, id, net, fates) && s.answers <= t.answers && HappenedTo(t, id, net(|fates|), fate)
    ensures AllHappened(t, id, net, fates + [fate])
  {
    StillHappened(s, t, id, net, fates);
  }

  /** Neither an OK nor an error: the strategy is asked. */
  predicate Undecided(fate: Fate) {
    fate.TimedOut? || (fate.Answered? && fate.reply != Granted && fate.reply != ServerError)
  }

  lemma AnswersRemain(s: State, t: State)
    requires Reaches(s, t)
    ensures s.answers <= t.answers
  {
    var states, steps :| IsRun(states, steps) && states[0] == s && states[|steps|] == t;
    AnswersRemainAlong(states, steps, |steps|);
  }

  lemma {:induction false} AnswersRemainAlong(states: seq<State>, steps: seq<Step>, n: nat)
    requires IsRun(states, steps) && n < |states|
    ensures states[0].answers <= states[n].answers
  {
    if n > 0 {
      AnswersRemainAlong(states, steps, n - 1);
    }
  }

  /** The phase a call is left in by a grant that the server really issued. */
  ghost predicate GotGrant(s: State, id: nat) {
    id in s.calls && s.calls[id].phase.Held?
    && exists a :: a in s.answers && a.request.id == id && a.request.command.Acquire? && a.reply == Granted
                   && s.calls[id].phase.lease == Promise(a.request)
  }

  /** On the way from `start` to `end` the server ran the request at `at` and gave this reply. */
  ghost predicate AnsweredAt(start: State, at: State, end: State, request: Request, reply: Reply) {
    Reaches(start, at) && request in at.sent && reply == Run(at.keys, at.now, request.command).1
    && Reaches(Apply(at, Execute(request)), end)
  }

  /** No attempt but the last decided anything, and the context did not end in a wait before it. */
  ghost predicate WentOn(fates: seq<Fate>, cancels: nat -> bool) {
    forall i :: 0 <= i < |fates| - 1 ==> Undecided(fates[i]) && !cancels(i)
  }

  /** What the loop makes of an attempt. */
  datatype Verdict = GoOn | Got | Stop(reason: Reason)

  function VerdictOn(fate: Fate, last: bool, cancelled: bool): Verdict {
    if fate.Broken? || fate == Answered(ServerError) then Stop(NetworkError)
    else if fate == Answered(Granted) then Got
    else if last then Stop(RetriesExhausted)
    else if cancelled then Stop(ContextDone)
    else GoOn
  }

  /** Every round but the last went on, and the last one's verdict stands. */
  ghost predicate RoundsSoFar(fates: seq<Fate>, retries: nat, cancels: nat -> bool, verdict: Verdict) {
    var n := |fates|;
    && n <= retries + 1 && (n == 0 ==> verdict == GoOn) && (verdict == GoOn ==> n <= retries)
    && (n > 0 ==> verdict == VerdictOn(fates[n - 1], n == retries + 1, cancels(n - 1)))
    && forall i :: 0 <= i < n - 1 ==> VerdictOn(fates[i], false, cancels(i)) == GoOn
  }

  lemma OneMoreRound(fates: seq<Fate>, retries: nat, cancels: nat -> bool, fate: Fate, verdict: Verdict)
    requires RoundsSoFar(fates, retries, cancels, GoOn)
    requires verdict == VerdictOn(fate, |fates| == retries, cancels(|fates|))
    ensures |fates| <= retries && RoundsSoFar(fates + [fate], retries, cancels, verdict)
  {
  }

  lemma VerdictMeans(fates: seq<Fate>, retries: nat, cancels: nat -> bool, verdict: Verdict)
    requires RoundsSoFar(fates, retries, cancels, verdict) && !verdict.GoOn?
    ensures 1 <= |fates| <= retries + 1
    ensures WentOn(fates, cancels)
    ensures var last := fates[|fates| - 1];
            && (verdict.Got? <==> last == Answered(Granted))
            && (verdict == Stop(NetworkError) <==> last.Broken? || last == Answered(ServerError))
            && (verdict == Stop(RetriesExhausted) <==> Undecided(last) && |fates| == retries + 1)
            && (verdict == Stop(ContextDone) <==> Undecided(last) && |fates| <= retries)
            && (verdict == Stop(ContextDone) ==> cancels(|fates| - 1))
  {
  }

  ghost predicate PhaseFits(s: State, id: nat, verdict: Verdict) {
    id in s.calls
    && match verdict
       case GoOn => s.calls[id].phase.Trying?
       case Got => GotGrant(s, id)
       case Stop(_) => s.calls[id].phase.Failed?
  }

  class World {
    var s: State

    constructor ()
      ensures s == Init
    {
      s := Init;
    }

    method Perform(step: Step)
      requires Enabled(s, step)
      modifies this
      ensures s == Apply(old(s), step)
      ensures Reaches(old(s), s)
    {
      ReachesItself(s);
      ReachesNext(s, s, step);
      s := Apply(s, step);
    }

    /** Other clients, the network, the server and the clock move; only call `id` itself waits. */
    method Interfere(ghost id: nat)
      modifies this
      ensures Reaches(old(s), s)
      ensures id in old(s).calls ==> id in s.calls && s.calls[id] == old(s).calls[id]
      ensures old(s).sent <= s.sent && old(s).answers <= s.answers
    {
      ReachesItself(s);
    }

    /**
      Sends one lock command and waits for its answer, a timeout or a broken connection, as `net` has it.
      An answer is what the server replied at a state `at` on the way.
     */
    method Attempt(id: nat, net: Net) returns (fate: Fate, answer: Answer, ghost at: State)
      requires id in s.calls && s.calls[id].phase.Trying?
      modifies this
      ensures Reaches(old(s), s)
      ensures id in s.calls && s.calls[id] == old(s).calls[id]
      ensures net.Delivers? <==> fate.Answered?
      ensures net.TimesOut? <==> fate.TimedOut?
      ensures fate.Answered? ==>
                answer in s.answers && answer.request.id == id && answer.reply == fate.reply
                && answer.request.command == AcquireOf(s.calls[id])
                && AnsweredAt(old(s), at, s, answer.request, fate.reply)
    {
      var request := Request(id, AcquireOf(s.calls[id]), s.now);
      answer := Answer(request, ServerError);
      Perform(SendAcquire(id));
      ghost var s1 := s;
      Interfere(id);
      ReachesThrough(old(s), s1, s);
      at := s;
      match net {
        case TimesOut =>
          fate := TimedOut;   // whether or not the server has run it
        case Breaks =>
          fate := Broken;
        case Delivers =>
          var reply := Run(s.keys, s.now, request.command).1;
          Perform(Execute(request));
          ghost var s2 := s;
          Interfere(id);
          ReachesThrough(at, s2, s);
          ReachesThrough(old(s), at, s);
          fate, answer := Answered(reply), Answer(request, reply);
      }
    }

    method GiveUpOn(ghost start: State, id: nat)
      requires id in s.calls && s.calls[id].phase.Trying? && Reaches(start, s)
      modifies this
      ensures s == SetPhase(old(s), id, Failed) && Reaches(start, s)
    {
      Perform(GiveUp(id));
      ReachesThrough(start, old(s), s);
    }

    method TakeHandle(ghost start: State, id: nat, answer: Answer)
      requires id in s.calls && s.calls[id].phase.Trying? && Reaches(start, s)
      requires answer in s.answers && answer.request.id == id && answer.request.command.Acquire? && answer.reply == Granted
      modifies this
      ensures Reaches(start, s) && s.answers == old(s).answers && GotGrant(s, id)
      ensures s.calls[id] == old(s).calls[id].(phase := Held(Promise(answer.request)))
    {
      Perform(TakeGrant(id, answer));
      ReachesThrough(start, old(s), s);
    }

    /**
      `retries` is how often the retry strategy says to go on before it gives up; `net` is what happens to
      each attempt, and `cancels` whether the context ends in the wait after it.  `fates` are the attempts
      as they ended, and they alone decide the result.
     */
    method Lock(id: nat, key: string, token: Token, expiration: nat, retries: nat, net: nat -> Net, cancels: nat -> bool)
      returns (result: LockResult, attempts: nat, ghost fates: seq<Fate>)
      requires id !in s.calls && Fresh(s, token)
      modifies this
      ensures Reaches(old(s), s)
      ensures 1 <= attempts <= retries + 1 && |fates| == attempts
      ensures AllHappened(s, id, net, fates)
      ensures WentOn(fates, cancels)
      ensures result.Handle? <==> fates[attempts - 1] == Answered(Granted)
      ensures result == Failure(NetworkError)
              <==> fates[attempts - 1].Broken? || fates[attempts - 1] == Answered(ServerError)
      ensures result == Failure(RetriesExhausted) <==> Undecided(fates[attempts - 1]) && attempts == retries + 1
      ensures result == Failure(ContextDone) <==> Undecided(fates[attempts - 1]) && attempts <= retries
      ensures result == Failure(ContextDone) ==> cancels(attempts - 1)
      ensures id in s.calls && Stands(s, id, Retry, key, token, expiration, s.calls[id].phase)
      ensures result.Handle? ==> result == Handle(key, token, expiration) && GotGrant(s, id)
      ensures result.Failure? ==> s.calls[id].phase.Failed?
    {
      Start(id, Retry, key, token, expiration);
      var verdict;
      verdict, attempts, fates := Rounds(old(s), id, retries, net, cancels);
      VerdictMeans(fates, retries, cancels, verdict);
      result := if verdict.Got? then Handle(key, token, expiration) else Failure(verdict.reason);
    }

    /** The loop, until an attempt, the strategy or the context ends it. */
    method Rounds(ghost start: State, id: nat, retries: nat, net: nat -> Net, cancels: nat -> bool)
      returns (verdict: Verdict, attempts: nat, ghost fates: seq<Fate>)
      requires id in s.calls && s.calls[id].phase.Trying? && Reaches(start, s)
      modifies this
      ensures Reaches(start, s) && AllHappened(s, id, net, fates) && |fates| == attempts
      ensures PhaseFits(s, id, verdict) && s.calls[id] == old(s).calls[id].(phase := s.calls[id].phase)
      ensures !verdict.GoOn? && RoundsSoFar(fates, retries, cancels, verdict)
    {
      attempts, fates, verdict := 0, [], GoOn;
      while verdict.GoOn?
        invariant Reaches(start, s) && AllHappened(s, id, net, fates) && |fates| == attempts
        invariant PhaseFits(s, id, verdict) && s.calls[id] == old(s).calls[id].(phase := s.calls[id].phase)
        invariant RoundsSoFar(fates, retries, cancels, verdict)
        decreases retries + 1 - attempts
      {
        ghost var s0, fate := s, TimedOut;
        verdict, fate := Round(start, id, net(attempts), attempts == retries, cancels(attempts));
        OneMoreHappened(s0, s, id, net, fates, fate);
        OneMoreRound(fates, retries, cancels, fate, verdict);
        fates := fates + [fate];
        attempts := attempts + 1;
      }
    }

    method Start(id: nat, via: Method, key: string, token: Token, expiration: nat)
      requires id !in s.calls && Fresh(s, token)
      modifies this
      ensures Reaches(old(s), s) && Stands(s, id, via, key, token, expiration, Trying)
    {
      Perform(Begin(id, via, key, token, expiration));
    }

    /** Once round the loop: an attempt, and what the strategy and the context make of it. */
    method Round(ghost start: State, id: nat, net: Net, last: bool, cancelled: bool) returns (verdict: Verdict, ghost fate: Fate)
      requires id in s.calls && s.calls[id].phase.Trying? && Reaches(start, s)
      modifies this
      ensures Reaches(start, s) && old(s).answers <= s.answers && HappenedTo(s, id, net, fate)
      ensures verdict == VerdictOn(fate, last, cancelled)
      ensures id in s.calls && s.calls[id] == old(s).calls[id].(phase := s.calls[id].phase)
      ensures PhaseFits(s, id, verdict)
    {
      var ended, answer, at := Attempt(id, net);
      fate := ended;
      ReachesThrough(start, old(s), s);
      AnswersRemain(old(s), s);
      assert fate.Answered? ==> IsLockAnswer(answer, id, fate.reply);
      if ended.Broken? || ended == Answered(ServerError) {
        GiveUpOn(start, id);
        return Stop(NetworkError), fate;
      }
      if ended == Answered(Granted) {
        TakeHandle(start, id, answer);
        return Got, fate;
      }
      if last {
        GiveUpOn(start, id);
        return Stop(RetriesExhausted), fate;
      }
      ghost var s1 := s;
      Interfere(id);      // until the timer fires
      ReachesThrough(start, s1, s);
      verdict := GoOn;
      if cancelled {
        GiveUpOn(start, id);
        verdict := Stop(ContextDone);
      }
    }

    /** The handle is returned exactly when the answer OK arrives, and the server says OK exactly when the key is free. */
    method TryLock(id: nat, key: string, token: Token, expiration: nat, net: Net)
      returns (result: LockResult, ghost fate: Fate, ghost at: State)
      requires id !in s.calls && Fresh(s, token)
      modifies this
      ensures Reaches(old(s), s)
      ensures HappenedTo(s, id, net, fate)
      ensures net.Delivers? ==>
                Reaches(old(s), at) && fate == Answered(if Free(at.keys, at.now, key) then Granted else Refused)
      ensures result == (if !fate.Answered? || fate.reply.ServerError? then Failure(NetworkError)
                         else if fate.reply == Granted then Handle(key, token, 0)
                         else Failure(LockTaken))
      ensures id in s.calls && Stands(s, id, Try, key, token, expiration, s.calls[id].phase)
      ensures result.Handle? ==> GotGrant(s, id)
      ensures result.Failure? ==> s.calls[id].phase.Failed?
    {
      Start(id, Try, key, token, expiration);
      ghost var s0 := s;
      var ended, answer;
      ended, answer, at := Attempt(id, net);
      fate := ended;
      ReachesThrough(old(s), s0, s);
      if net.Delivers? {
        ReachesThrough(old(s), s0, at);
        assert IsLockAnswer(answer, id, fate.reply);
      }
      if !ended.Answered? || ended.reply.ServerError? {
        GiveUpOn(old(s), id);
        result := Failure(NetworkError);
      } else if ended.reply == Granted {
        TakeHandle(old(s), id, answer);
        result := Handle(key, token, 0);
      } else {
        GiveUpOn(old(s), id);
        result := Failure(LockTaken);
      }
    }

    /**
      Sends a command for a handle; without `arrives` the connection breaks or the context ends first.
      An answer was issued at a state `at` on the way, and the world went on before it arrived.
     */
    method Ask(id: nat, send: Step, request: Request, arrives: bool) returns (answered: bool, reply: Reply, ghost at: State)
      requires Enabled(s, send) && request in Apply(s, send).sent && id in Apply(s, send).calls
      modifies this
      ensures Reaches(old(s), s)
      ensures id in s.calls && s.calls[id] == Apply(old(s), send).calls[id]
      ensures answered == arrives
      ensures answered ==> AnsweredAt(old(s), at, s, request, reply) && Answer(request, reply) in s.answers
    {
      Perform(send);
      ghost var s1 := s;
      Interfere(id);
      ReachesThrough(old(s), s1, s);
      at := s;
      if !arrives {
        return false, ServerError, at;
      }
      reply := Run(s.keys, s.now, request.command).1;
      Perform(Execute(request));
      ghost var s2 := s;
      Interfere(id);
      ReachesThrough(at, s2, s);
      ReachesThrough(old(s), at, s);
      answered := true;
    }

    /** The step that answered an Unlock, either way, left the key not held by this handle. */
    method Unlock(id: nat, arrives: bool) returns (answered: bool, outcome: Outcome, ghost at: State)
      requires id in s.calls && s.calls[id].phase.Held?
      modifies this
      ensures Reaches(old(s), s)
      ensures id in s.calls && s.calls[id] == old(s).calls[id].(phase := Released)
      ensures answered == arrives
      ensures answered ==>
                var request := Request(id, ReleaseOf(old(s).calls[id]), old(s).now);
                exists reply :: AnsweredAt(old(s), at, s, request, reply) && outcome == OutcomeOf(reply)
      ensures answered ==>
                var c := old(s).calls[id]; var after := Apply(at, Execute(Request(id, ReleaseOf(c), old(s).now)));
                && outcome != ServerFailed && !HeldBy(after.keys, after.now, c.key, c.token)
                && (outcome.Done? <==> HeldBy(at.keys, at.now, c.key, c.token))
    {
      var reply;
      answered, reply, at := Ask(id, SendRelease(id), Request(id, ReleaseOf(s.calls[id]), s.now), arrives);
      outcome := OutcomeOf(reply);
    }

    /**
      The step that answered a Refresh says whether the handle had the key then; it had it afterwards
      exactly when its expiration is positive.
     */
    method Refresh(id: nat, arrives: bool) returns (answered: bool, outcome: Outcome, ghost at: State)
      requires id in s.calls && s.calls[id].phase.Held?
      modifies this
      ensures Reaches(old(s), s)
      ensures id in s.calls && s.calls[id] == old(s).calls[id].(refreshed := true, phase := s.calls[id].phase)
      ensures s.calls[id].phase == if answered && outcome.Done?
                                   then Held(LeaseFrom(old(s).now, s.calls[id].HandleExpiration()))
                                   else old(s).calls[id].phase
      ensures answered == arrives
      ensures answered ==>
                var request := Request(id, RenewOf(old(s).calls[id]), old(s).now);
                exists reply :: AnsweredAt(old(s), at, s, request, reply) && outcome == OutcomeOf(reply)
      ensures answered ==>
                var c := old(s).calls[id]; var after := Apply(at, Execute(Request(id, RenewOf(c), old(s).now)));
                && outcome != ServerFailed
                && (outcome.Done? <==> HeldBy(at.keys, at.now, c.key, c.token))
                && (HeldBy(after.keys, after.now, c.key, c.token) <==> outcome.Done? && c.HandleExpiration() > 0)
    {
      var request := Request(id, RenewOf(s.calls[id]), s.now);
      var reply;
      answered, reply, at := Ask(id, SendRenew(id), request, arrives);
      outcome := OutcomeOf(reply);
      if answered && outcome.Done? {
        ghost var s1 := s;
        Perform(TakeRenewal(id, Answer(request, reply)));
        ReachesThrough(old(s), s1, s);
        ReachesThrough(Apply(at, Execute(request)), s1, s);
      }
    }
  }
}
