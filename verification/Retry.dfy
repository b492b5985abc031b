/** The retry strategy that comes with the lock: it compares a counter that nothing counts up. */
module Retry {

  datatype Strategy = Strategy(maxCnt: int, cnt: int)

  /** What `Next` leaves and answers: go on, or give up. */
  function Next(s: Strategy): (Strategy, bool) {
    (s, s.cnt < s.maxCnt)
  }

  /** The answer of the call after `n` others. */
  function Answer(s: Strategy, n: nat): bool {
    if n == 0 then Next(s).1 else Answer(Next(s).0, n - 1)
  }

  lemma {:induction false} EveryAnswerIsTheFirst(s: Strategy, n: nat)
    ensures Answer(s, n) <==> s.cnt < s.maxCnt
  {
    if n > 0 {
      EveryAnswerIsTheFirst(Next(s).0, n - 1);
    }
  }

  /** The strategy says to go on this many times, and then to give up. */
  ghost predicate Allows(s: Strategy, retries: nat) {
    (forall i :: 0 <= i < retries ==> Answer(s, i)) && !Answer(s, retries)
  }

  /** A bound on the retries exists if and only if the strategy gives up at once, and then it is zero. */
  lemma AllowsIff(s: Strategy, retries: nat)
    ensures Allows(s, retries) <==> retries == 0 && s.maxCnt <= s.cnt
  {
    EveryAnswerIsTheFirst(s, retries);
    EveryAnswerIsTheFirst(s, 0);
  }

  class FixedInterval {
    const maxCnt: int
    var cnt: int

    constructor (maxCnt: int)
      ensures Strategy(this.maxCnt, cnt) == Strategy(maxCnt, 0)
    {
      this.maxCnt, cnt := maxCnt, 0;
    }

    method NextInterval() returns (goOn: bool)
      ensures (Strategy(maxCnt, cnt), goOn) == Next(Strategy(maxCnt, cnt))
    {
      if cnt >= maxCnt {
        return false;
      }
      goOn := true;
    }
  }
}
