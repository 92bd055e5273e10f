/** The retry policy of one story stage: a bound on attempts and a breaker on repeated failures. */
module Retries {
  datatype Key = Key(story: string, stage: string)

  datatype Attempt = Attempt(success: bool, fingerprint: string)

  const THRESHOLD: nat := 3

  datatype Breaker = Breaker(consecutiveFailures: nat, lastFingerprint: string, broken: bool)

  const INITIAL := Breaker(0, "", false)

  /** The failures at the end of the attempts. */
  function TrailingFailures(attempts: seq<Attempt>): nat {
    if attempts == [] || attempts[|attempts| - 1].success then 0
    else 1 + TrailingFailures(attempts[..|attempts| - 1])
  }

  /** `_update_circuit_breaker`, which stores the fingerprint before it compares it. */
  function Update(b: Breaker, a: Attempt): Breaker {
    if a.success then b.(consecutiveFailures := 0, broken := false)
    else
      var b1 := b.(consecutiveFailures := b.consecutiveFailures + 1, lastFingerprint := a.fingerprint);
      if b1.consecutiveFailures >= THRESHOLD && a.fingerprint == b1.lastFingerprint then b1.(broken := true) else b1
  }

  function Run(attempts: seq<Attempt>): Breaker {
    if attempts == [] then INITIAL else Update(Run(attempts[..|attempts| - 1]), attempts[|attempts| - 1])
  }

  /**
    The breaker is open exactly after three failures in a row, whatever their fingerprints: the comparison with
    the last fingerprint, meant to ask for the same error again, always succeeds.
  */
  lemma {:induction false} BrokenIff(attempts: seq<Attempt>)
    ensures Run(attempts).broken <==> TrailingFailures(attempts) >= THRESHOLD
    ensures Run(attempts).consecutiveFailures == TrailingFailures(attempts)
  {
    if attempts == [] {
    } else {
      BrokenIff(attempts[..|attempts| - 1]);
    }
  }

  lemma {:induction false} TrailingFailuresIff(attempts: seq<Attempt>, n: nat)
    ensures TrailingFailures(attempts) >= n <==>
            n <= |attempts| && forall i :: |attempts| - n <= i < |attempts| ==> !attempts[i].success
  {
    if attempts == [] || n == 0 {
    } else {
      TrailingFailuresIff(attempts[..|attempts| - 1], n - 1);
    }
  }

  lemma {:induction false} OnlyFailuresTrail(attempts: seq<Attempt>)
    requires forall i :: 0 <= i < |attempts| ==> !attempts[i].success
    ensures TrailingFailures(attempts) == |attempts|
  {
    if attempts == [] {
    } else {
      OnlyFailuresTrail(attempts[..|attempts| - 1]);
    }
  }

  class RetryPolicy {
    const maxRetries: int
    var attempts: map<Key, seq<Attempt>>
    var breakers: map<Key, Breaker>

    ghost predicate Valid()
      reads this
    {
      && attempts.Keys == breakers.Keys
      && forall k :: k in attempts ==> breakers[k] == Run(attempts[k])
    }

    function Attempts(k: Key): seq<Attempt>
      reads this
    {
      if k in attempts then attempts[k] else []
    }

    constructor (maxRetries: int)
      ensures Valid() && this.maxRetries == maxRetries && attempts == map[]
    {
      this.maxRetries := maxRetries;
      attempts, breakers := map[], map[];
    }

    method ShouldRetry(k: Key) returns (retry: bool)
      requires Valid()
      ensures retry <==> TrailingFailures(Attempts(k)) < THRESHOLD && |Attempts(k)| < maxRetries
    {
      BrokenIff(Attempts(k));
      if k in breakers && breakers[k].broken {
        return false;
      }
      return |Attempts(k)| < maxRetries;
    }

    method RecordAttempt(k: Key, success: bool, fingerprint: string)
      requires Valid()
      modifies this
      ensures Valid() && Attempts(k) == old(Attempts(k)) + [Attempt(success, fingerprint)]
      ensures forall j :: j != k ==> Attempts(j) == old(Attempts(j))
    {
      var a := Attempt(success, fingerprint);
      var list := Attempts(k);
      var breaker := if k in breakers then breakers[k] else INITIAL;
      assert (list + [a])[..|list + [a]| - 1] == list;
      attempts := attempts[k := list + [a]];
      breakers := breakers[k := Update(breaker, a)];
    }
  }
}
