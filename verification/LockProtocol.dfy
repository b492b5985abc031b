/**
  The distributed lock as a step system: clients, one server, a clock and a network that may delay,
  lose or repeat any request and any reply.  Requests and replies are kept for good, so a request can
  run at any later time, more than once or never, and a reply can arrive late or never.
 */
module LockProtocol {
  import opened RedisScripts

  /** One call of `TryLock` or `Lock`, and the handle it may have returned. */
  datatype Method = Try | Retry

  datatype Phase =
    | Trying                      // no handle yet
    | Failed                      // the call returned an error
    | Held(lease: Deadline)       // the caller has the handle and counts on it until `lease`
    | Released                    // the caller has called Unlock

  datatype Call = Call(via: Method, key: string, token: Token, expiration: nat, phase: Phase, refreshed: bool) {
    /** The `expiration` field of the handle: `TryLock` leaves it 0. */
    function HandleExpiration(): nat {
      if via.Try? then 0 else expiration
    }

    /** The caller has asked for a refresh that the server takes as a removal. */
    predicate Spoiled() {
      refreshed && HandleExpiration() == 0
    }
  }

  datatype Command =
    | Acquire(via: Method, key: string, token: Token, expiration: nat)
    | Release(key: string, token: Token)
    | Renew(key: string, token: Token, expiration: nat)

  datatype Request = Request(id: nat, command: Command, sentAt: nat)

  datatype Answer = Answer(request: Request, reply: Reply)

  datatype State = State(
    now: nat, keys: Keys, calls: map<nat, Call>, sent: set<Request>, answers: set<Answer>)

  function Run(keys: Keys, now: nat, c: Command): (Keys, Reply) {
    match c
    case Acquire(Try, k, t, e) => SetNX(keys, now, k, t, e)
    case Acquire(Retry, k, t, e) => LockScript(keys, now, k, t, e)
    case Release(k, t) => UnlockScript(keys, now, k, t)
    case Renew(k, t, e) => RefreshScript(keys, now, k, t, e)
  }

  function AcquireOf(c: Call): Command { Acquire(c.via, c.key, c.token, c.expiration) }

  function ReleaseOf(c: Call): Command { Release(c.key, c.token) }

  function RenewOf(c: Call): Command { Renew(c.key, c.token, c.HandleExpiration()) }

  /** The lease a positive answer promises: counted from when the request was sent. */
  function Promise(r: Request): Deadline
    requires !r.command.Release?
  {
    LeaseFrom(r.sentAt, r.command.expiration)
  }

  predicate Positive(a: Answer) {
    (a.request.command.Acquire? && a.reply == Granted) || (a.request.command.Renew? && a.reply == Number(1))
  }

  /** What `Unlock` and `Refresh` return for a reply. */
  datatype Outcome = Done | LockNotHeld | ServerFailed

  function OutcomeOf(reply: Reply): Outcome {
    if reply.ServerError? then ServerFailed else if reply == Number(1) then Done else LockNotHeld
  }

  datatype Step =
    | Begin(id: nat, via: Method, key: string, token: Token, expiration: nat)
    | SendAcquire(id: nat)
    | Execute(request: Request)
    | TakeGrant(id: nat, answer: Answer)
    | GiveUp(id: nat)
    | SendRelease(id: nat)
    | SendRenew(id: nat)
    | TakeRenewal(id: nat, answer: Answer)
    | Tick
    | Reclaim(key: string)

  ghost predicate Fresh(s: State, token: Token) {
    forall id :: id in s.calls ==> s.calls[id].token != token
  }

  ghost predicate Enabled(s: State, step: Step) {
    match step
    case Begin(id, _, _, token, _) => id !in s.calls && Fresh(s, token)
    case SendAcquire(id) => id in s.calls && s.calls[id].phase.Trying?
    case Execute(r) => r in s.sent
    case TakeGrant(id, a) =>
      id in s.calls && s.calls[id].phase.Trying? && a in s.answers && a.request.id == id
      && a.request.command.Acquire? && a.reply == Granted
    case GiveUp(id) => id in s.calls && s.calls[id].phase.Trying?
    case SendRelease(id) => id in s.calls && (s.calls[id].phase.Held? || s.calls[id].phase.Released?)
    case SendRenew(id) => id in s.calls && (s.calls[id].phase.Held? || s.calls[id].phase.Released?)
    case TakeRenewal(id, a) =>
      id in s.calls && s.calls[id].phase.Held? && a in s.answers && a.request.id == id
      && a.request.command.Renew? && a.reply == Number(1)
    case Tick => true
    case Reclaim(key) => key in s.keys && !s.keys[key].deadline.Live(s.now)
  }

  function Apply(s: State, step: Step): State
    requires Enabled(s, step)
  {
    match step
    case Begin(id, via, key, token, expiration) =>
      s.(calls := s.calls[id := Call(via, key, token, expiration, Trying, false)])
    case SendAcquire(id) => s.(sent := s.sent + {Request(id, AcquireOf(s.calls[id]), s.now)})
    case Execute(r) =>
      var (keys, reply) := Run(s.keys, s.now, r.command);
      s.(keys := keys, answers := s.answers + {Answer(r, reply)})
    case TakeGrant(id, a) => SetPhase(s, id, Held(Promise(a.request)))
    case GiveUp(id) => SetPhase(s, id, Failed)
    case SendRelease(id) =>
      SetPhase(s, id, Released).(sent := s.sent + {Request(id, ReleaseOf(s.calls[id]), s.now)})
    case SendRenew(id) =>
      s.(calls := s.calls[id := s.calls[id].(refreshed := true)],
         sent := s.sent + {Request(id, RenewOf(s.calls[id]), s.now)})
    case TakeRenewal(id, a) => SetPhase(s, id, Held(Promise(a.request)))
    case Tick => s.(now := s.now + 1)
    case Reclaim(key) => s.(keys := s.keys - {key})
  }

  function SetPhase(s: State, id: nat, phase: Phase): State
    requires id in s.calls
  {
    s.(calls := s.calls[id := s.calls[id].(phase := phase)])
  }

  const Init := State(0, map[], map[], {}, {})

  // ---- What every step keeps ----

  /** No two calls share a token. */
  ghost predicate DistinctTokens(s: State) {
    forall i, j :: i in s.calls && j in s.calls && s.calls[i].token == s.calls[j].token ==> i == j
  }

  ghost predicate SentBy(s: State, r: Request) {
    r.id in s.calls && r.sentAt <= s.now
    && (var c := s.calls[r.id];
        || r.command == AcquireOf(c)
        || (r.command == ReleaseOf(c) && c.phase.Released?)
        || (r.command == RenewOf(c) && c.refreshed))
  }

  ghost predicate RequestsInv(s: State) {
    (forall r :: r in s.sent ==> SentBy(s, r)) && (forall a :: a in s.answers ==> a.request in s.sent)
  }

  /** Call `id` put the entry under `key`; its deadline is at most an expiration away. */
  ghost predicate Owns(s: State, key: string, id: nat) {
    id in s.calls && key in s.keys
    && (var c := s.calls[id]; var e := s.keys[key];
        && c.key == key && c.token == e.token
        && (if c.expiration == 0 then c.via.Try? && e.deadline == Never
            else e.deadline.At? && e.deadline.time <= s.now + c.expiration))
  }

  ghost predicate EntriesInv(s: State) {
    forall key :: key in s.keys ==> exists id :: Owns(s, key, id)
  }

  /** If the lease is still on, the server holds the call's token until at least then. */
  ghost predicate Backed(s: State, c: Call, lease: Deadline) {
    lease.Live(s.now) ==>
      c.key in s.keys && s.keys[c.key].token == c.token && s.keys[c.key].deadline.Covers(lease)
  }

  /** The lease promised by a positive answer is backed unless the call was released or spoiled. */
  ghost predicate AnswerBacked(s: State, a: Answer) {
    a.request.id in s.calls && !a.request.command.Release?
    && (var c := s.calls[a.request.id];
        !c.phase.Released? && !c.Spoiled() ==> Backed(s, c, Promise(a.request)))
  }

  ghost predicate AnswersInv(s: State) {
    forall a :: a in s.answers && Positive(a) ==> AnswerBacked(s, a)
  }

  ghost predicate HandlesInv(s: State) {
    forall id :: id in s.calls && s.calls[id].phase.Held? && !s.calls[id].Spoiled()
                 ==> Backed(s, s.calls[id], s.calls[id].phase.lease)
  }

  /** A handle's lease ends no later than one expiration from now. */
  ghost predicate LeasesInv(s: State) {
    forall id :: id in s.calls && s.calls[id].phase.Held? && !s.calls[id].Spoiled()
                 ==> LeaseFrom(s.now, s.calls[id].expiration).Covers(s.calls[id].phase.lease)
  }

  ghost predicate Inv(s: State) {
    DistinctTokens(s) && RequestsInv(s) && EntriesInv(s) && AnswersInv(s) && HandlesInv(s) && LeasesInv(s)
  }

  // ---- Executing a command ----

  /** A command that changes the key space either stores its own token on a free or own key, ... */
  ghost predicate Stores(s: State, r: Request, after: Keys) {
    !r.command.Release?
    && (Free(s.keys, s.now, r.command.key) || HeldBy(s.keys, s.now, r.command.key, r.command.token))
    && after == s.keys[r.command.key := Entry(r.command.token, Promise(r.(sentAt := s.now)))]
  }

  /** ... or removes its own token, which only a released or spoiled call asks for. */
  ghost predicate Removes(s: State, r: Request, after: Keys) {
    HeldBy(s.keys, s.now, r.command.key, r.command.token) && after == s.keys - {r.command.key}
    && r.id in s.calls && (s.calls[r.id].phase.Released? || s.calls[r.id].Spoiled())
  }

  lemma OwnerIsUnique(s: State, id: nat)
    requires Inv(s) && id in s.calls
    ensures forall key :: key in s.keys && s.keys[key].token == s.calls[id].token ==> Owns(s, key, id)
  {
    forall key | key in s.keys && s.keys[key].token == s.calls[id].token
      ensures Owns(s, key, id)
    {
      var other :| Owns(s, key, other);
      assert other == id;
    }
  }

  lemma ExecuteCases(s: State, r: Request)
    requires Inv(s) && r in s.sent
    ensures r.id in s.calls && r.command.token == s.calls[r.id].token && r.command.key == s.calls[r.id].key
    ensures var (after, reply) := Run(s.keys, s.now, r.command);
            || (after == s.keys && !Positive(Answer(r, reply)))
            || (Stores(s, r, after) && Positive(Answer(r, reply)) && r.command.expiration == s.calls[r.id].expiration
                && (r.command.expiration == 0 ==> s.calls[r.id].via.Try?))
            || Removes(s, r, after)
  {
    assert SentBy(s, r);
    OwnerIsUnique(s, r.id);
  }

  /** A promise made to a call that was not spoiled ends no later than one expiration from now. */
  lemma PromiseBound(s: State, a: Answer)
    requires RequestsInv(s) && a in s.answers && Positive(a)
    ensures a.request.id in s.calls && !a.request.command.Release?
    ensures var c := s.calls[a.request.id];
            !c.Spoiled() ==> LeaseFrom(s.now, c.expiration).Covers(Promise(a.request))
  {
    assert SentBy(s, a.request);
  }

  lemma BackedAcrossStore(s: State, r: Request, s': State, id: nat, lease: Deadline)
    requires Inv(s) && r.id in s.calls && Stores(s, r, s'.keys) && s'.now == s.now
    requires r.command.token == s.calls[r.id].token && r.command.key == s.calls[r.id].key
    requires r.command.expiration == s.calls[r.id].expiration
    requires id in s.calls && Backed(s, s.calls[id], lease)
    requires LeaseFrom(s.now, s.calls[id].expiration).Covers(lease)
    ensures Backed(s', s.calls[id], lease)
  {
  }

  lemma AnswerAcrossStore(s: State, r: Request, s': State, a: Answer)
    requires Inv(s) && r.id in s.calls && Stores(s, r, s'.keys) && s'.now == s.now && s'.calls == s.calls
    requires r.command.token == s.calls[r.id].token && r.command.key == s.calls[r.id].key
    requires r.command.expiration == s.calls[r.id].expiration
    requires a in s.answers && Positive(a)
    ensures AnswerBacked(s', a)
  {
    assert AnswerBacked(s, a);
    PromiseBound(s, a);
    var c := s.calls[a.request.id];
    if !c.phase.Released? && !c.Spoiled() {
      BackedAcrossStore(s, r, s', a.request.id, Promise(a.request));
    }
  }

  lemma StoreKeepsInv(s: State, r: Request, s': State)
    requires Inv(s) && r in s.sent && Enabled(s, Execute(r)) && s' == Apply(s, Execute(r))
    requires Stores(s, r, s'.keys) && r.id in s.calls
    requires r.command.token == s.calls[r.id].token && r.command.key == s.calls[r.id].key
    requires r.command.expiration == s.calls[r.id].expiration
    requires r.command.expiration == 0 ==> s.calls[r.id].via.Try?
    ensures Inv(s')
  {
    var key, c := r.command.key, s.calls[r.id];
    assert Owns(s', key, r.id);
    forall k | k in s'.keys
      ensures exists id :: Owns(s', k, id)
    {
      if k != key {
        var id :| Owns(s, k, id);
        assert Owns(s', k, id);
      }
    }
    forall a | a in s'.answers && Positive(a)
      ensures AnswerBacked(s', a)
    {
      if a in s.answers {
        AnswerAcrossStore(s, r, s', a);
      } else {
        assert a.request == r;
      }
    }
    forall id | id in s'.calls && s'.calls[id].phase.Held? && !s'.calls[id].Spoiled()
      ensures Backed(s', s'.calls[id], s'.calls[id].phase.lease)
    {
      BackedAcrossStore(s, r, s', id, s.calls[id].phase.lease);
    }
  }

  lemma RemoveKeepsInv(s: State, r: Request, s': State)
    requires Inv(s) && r in s.sent && Enabled(s, Execute(r)) && s' == Apply(s, Execute(r))
    requires Removes(s, r, s'.keys)
    requires r.command.token == s.calls[r.id].token && r.command.key == s.calls[r.id].key
    ensures Inv(s')
  {
    forall k | k in s'.keys
      ensures exists id :: Owns(s', k, id)
    {
      var id :| Owns(s, k, id);
      assert Owns(s', k, id);
    }
    forall a | a in s'.answers && Positive(a)
      ensures AnswerBacked(s', a)
    {
      if a in s.answers {
        assert AnswerBacked(s, a);
      } else {
        assert a.request == r;
      }
    }
  }

  lemma ExecuteKeepsInv(s: State, r: Request, s': State)
    requires Inv(s) && Enabled(s, Execute(r)) && s' == Apply(s, Execute(r))
    ensures Inv(s')
  {
    ExecuteCases(s, r);
    if Removes(s, r, s'.keys) {
      RemoveKeepsInv(s, r, s');
    } else if Stores(s, r, s'.keys) {
      StoreKeepsInv(s, r, s');
    } else {
      forall k | k in s'.keys
        ensures exists id :: Owns(s', k, id)
      {
        var id :| Owns(s, k, id);
        assert Owns(s', k, id);
      }
    }
  }

  /** Time passes or the server reclaims an expired key. */
  lemma ServerStepKeepsInv(s: State, step: Step, s': State)
    requires Inv(s) && (step.Tick? || step.Reclaim?) && Enabled(s, step) && s' == Apply(s, step)
    ensures Inv(s')
  {
    forall k | k in s'.keys
      ensures exists id :: Owns(s', k, id)
    {
      var id :| Owns(s, k, id);
      assert Owns(s', k, id);
    }
    forall a | a in s'.answers && Positive(a)
      ensures AnswerBacked(s', a)
    {
      assert AnswerBacked(s, a);
    }
  }

  predicate IsClientStep(step: Step) {
    !step.Tick? && !step.Reclaim? && !step.Execute?
  }

  lemma ClientStepKeepsRequests(s: State, step: Step, s': State)
    requires Inv(s) && IsClientStep(step) && Enabled(s, step) && s' == Apply(s, step)
    ensures DistinctTokens(s') && RequestsInv(s')
  {
    forall r | r in s'.sent
      ensures SentBy(s', r)
    {
      assert r in s.sent ==> SentBy(s, r);
    }
  }

  lemma ClientStepKeepsEntries(s: State, step: Step, s': State)
    requires Inv(s) && IsClientStep(step) && Enabled(s, step) && s' == Apply(s, step)
    ensures EntriesInv(s')
  {
    forall k | k in s'.keys
      ensures exists id :: Owns(s', k, id)
    {
      var id :| Owns(s, k, id);
      assert Owns(s', k, id);
    }
  }

  lemma ClientStepKeepsAnswers(s: State, step: Step, s': State)
    requires Inv(s) && IsClientStep(step) && Enabled(s, step) && s' == Apply(s, step)
    ensures AnswersInv(s')
  {
    forall a | a in s'.answers && Positive(a)
      ensures AnswerBacked(s', a)
    {
      assert AnswerBacked(s, a);
    }
  }

  lemma ClientStepKeepsHandles(s: State, step: Step, s': State)
    requires Inv(s) && IsClientStep(step) && Enabled(s, step) && s' == Apply(s, step)
    ensures HandlesInv(s') && LeasesInv(s')
  {
    if step.TakeGrant? || step.TakeRenewal? {
      PromiseBound(s, step.answer);
      assert AnswerBacked(s, step.answer);
    }
  }

  lemma ClientStepKeepsInv(s: State, step: Step, s': State)
    requires Inv(s) && IsClientStep(step) && Enabled(s, step) && s' == Apply(s, step)
    ensures Inv(s')
  {
    ClientStepKeepsRequests(s, step, s');
    ClientStepKeepsEntries(s, step, s');
    ClientStepKeepsAnswers(s, step, s');
    ClientStepKeepsHandles(s, step, s');
  }

  lemma StepKeepsInv(s: State, step: Step)
    requires Inv(s) && Enabled(s, step)
    ensures Inv(Apply(s, step))
  {
    if step.Execute? {
      ExecuteKeepsInv(s, step.request, Apply(s, step));
    } else if step.Tick? || step.Reclaim? {
      ServerStepKeepsInv(s, step, Apply(s, step));
    } else {
      ClientStepKeepsInv(s, step, Apply(s, step));
    }
  }
}
