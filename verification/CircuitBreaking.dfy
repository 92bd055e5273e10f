/**
  The circuit breaker of one LLM provider as a timed state machine over its event history.
  Times are reals, in seconds; each call reads the clock once.
*/
module CircuitBreaking {
  import opened Options

  datatype State = Closed | Open | HalfOpen

  datatype Config = Config(failureThreshold: int, recoveryTimeout: int, halfOpenMaxCalls: int)

  datatype Breaker = Breaker(state: State, failures: nat, successes: nat, lastFailure: Option<real>)

  /** A call of `get_state`/`can_execute`, `record_success` or `record_failure`. */
  datatype Event = Query(at: real) | Success(at: real) | Failure(at: real)

  const INITIAL := Breaker(Closed, 0, 0, None)

  /** `get_state`, which moves on from OPEN once the timeout has elapsed. */
  function Look(cfg: Config, b: Breaker, now: real): Breaker {
    if b.state == Open && b.lastFailure.Some? && now - b.lastFailure.value >= cfg.recoveryTimeout as real
    then b.(state := HalfOpen, failures := 0, successes := 0)
    else b
  }

  function CanExecute(cfg: Config, b: Breaker, now: real): bool {
    match Look(cfg, b, now).state
    case Closed => true
    case Open => false
    case HalfOpen => Look(cfg, b, now).successes < cfg.halfOpenMaxCalls
  }

  function Succeed(cfg: Config, b: Breaker, now: real): Breaker {
    var b1 := Look(cfg, b.(failures := 0, successes := b.successes + 1, lastFailure := None), now);
    if b1.state == HalfOpen && b1.successes >= cfg.halfOpenMaxCalls
    then b1.(state := Closed, successes := 0)
    else b1
  }

  function Fail(cfg: Config, b: Breaker, now: real): Breaker {
    var b1 := b.(failures := b.failures + 1, lastFailure := Some(now), successes := 0);
    if b1.failures >= cfg.failureThreshold then b1.(state := Open) else b1
  }

  function Apply(cfg: Config, b: Breaker, e: Event): Breaker {
    match e
    case Query(t) => Look(cfg, b, t)
    case Success(t) => Succeed(cfg, b, t)
    case Failure(t) => Fail(cfg, b, t)
  }

  /** The breaker after a history of events. */
  function Run(cfg: Config, evs: seq<Event>): Breaker {
    if evs == [] then INITIAL else Apply(cfg, Run(cfg, evs[..|evs| - 1]), evs[|evs| - 1])
  }

  lemma RunSnoc(cfg: Config, evs: seq<Event>, e: Event)
    ensures Run(cfg, evs + [e]) == Apply(cfg, Run(cfg, evs), e)
  {
    assert (evs + [e])[..|evs + [e]| - 1] == evs;
  }

  // ---- what the counters count ---------------------------------------------------------------

  function CountFailures(evs: seq<Event>): nat {
    if evs == [] then 0 else CountFailures(evs[..|evs| - 1]) + if evs[|evs| - 1].Failure? then 1 else 0
  }

  function CountSuccesses(evs: seq<Event>): nat {
    if evs == [] then 0 else CountSuccesses(evs[..|evs| - 1]) + if evs[|evs| - 1].Success? then 1 else 0
  }

  /** The event at position `i` is a success, or the query that turns the breaker half open. */
  ghost predicate Clears(cfg: Config, evs: seq<Event>, i: nat)
    requires i < |evs|
  {
    evs[i].Success? || (Run(cfg, evs[..i]).state == Open && Run(cfg, evs[..i + 1]).state == HalfOpen)
  }

  /** No success and no half-open reset from position `k` on. */
  ghost predicate Uncleared(cfg: Config, evs: seq<Event>, k: nat) {
    k <= |evs| && forall i :: k <= i < |evs| ==> !Clears(cfg, evs, i)
  }

  /** The failure counter is the number of failures since the last success or half-open reset. */
  lemma {:induction false} FailureCounter(cfg: Config, evs: seq<Event>)
    ensures exists k: nat :: Uncleared(cfg, evs, k) && CountFailures(evs[k..]) == Run(cfg, evs).failures
    ensures forall k: nat :: Uncleared(cfg, evs, k) ==> CountFailures(evs[k..]) <= Run(cfg, evs).failures
  {
    if evs == [] {
      assert Uncleared(cfg, evs, 0);
    } else {
      var n := |evs| - 1;
      var prefix, last := evs[..n], evs[n];
      FailureCounter(cfg, prefix);
      forall i | 0 <= i < n
        ensures Clears(cfg, evs, i) == Clears(cfg, prefix, i)
      {
        assert prefix[..i] == evs[..i] && prefix[..i + 1] == evs[..i + 1];
      }
      assert evs[..n + 1] == evs;
      forall k | 0 <= k <= n
        ensures CountFailures(evs[k..]) == CountFailures(prefix[k..]) + if last.Failure? then 1 else 0
      {
        assert evs[k..][..|evs[k..]| - 1] == prefix[k..];
      }
      if Clears(cfg, evs, n) {
        assert Uncleared(cfg, evs, |evs|) && evs[|evs|..] == [];
        assert forall k: nat :: Uncleared(cfg, evs, k) ==> k == |evs|;
      } else {
        var k: nat :| Uncleared(cfg, prefix, k) && CountFailures(prefix[k..]) == Run(cfg, prefix).failures;
        assert Uncleared(cfg, evs, k);
        forall k': nat | Uncleared(cfg, evs, k')
          ensures CountFailures(evs[k'..]) <= Run(cfg, evs).failures
        {
          if k' <= n {
            assert Uncleared(cfg, prefix, k');
          } else {
            assert evs[k'..] == [];
          }
        }
      }
    }
  }

  /** The failures of some uncleared end of the history number at least `n`. */
  ghost predicate FailuresInARow(cfg: Config, evs: seq<Event>, n: int) {
    exists k: nat :: Uncleared(cfg, evs, k) && CountFailures(evs[k..]) >= n
  }

  /**
    A breaker that is not open opens at an event exactly when that event is a failure that
    completes failure_threshold failures with no success and no half-open reset between them.
  */
  lemma OpensIff(cfg: Config, evs: seq<Event>, e: Event)
    requires Run(cfg, evs).state != Open
    ensures Run(cfg, evs + [e]).state == Open <==>
            e.Failure? && FailuresInARow(cfg, evs + [e], cfg.failureThreshold)
  {
    var all := evs + [e];
    RunSnoc(cfg, evs, e);
    FailureCounter(cfg, all);
  }

  /** The breaker stays half open, without a failure, from position `k` to the end. */
  ghost predicate Probing(cfg: Config, evs: seq<Event>, k: nat) {
    && k <= |evs|
    && (forall i :: k <= i <= |evs| ==> Run(cfg, evs[..i]).state == HalfOpen)
    && (forall i :: k <= i < |evs| ==> !evs[i].Failure?)
  }

  /** While half open, the success counter counts the successes since the breaker entered that state or last failed. */
  lemma {:induction false} SuccessCounter(cfg: Config, evs: seq<Event>)
    requires Run(cfg, evs).state == HalfOpen
    ensures exists k: nat :: Probing(cfg, evs, k) && CountSuccesses(evs[k..]) == Run(cfg, evs).successes
    ensures forall k: nat :: Probing(cfg, evs, k) ==> CountSuccesses(evs[k..]) <= Run(cfg, evs).successes
  {
    var n := |evs| - 1;
    var prefix, last := evs[..n], evs[n];
    assert evs[..|evs|] == evs && prefix[..n] == prefix;
    forall k | 0 <= k <= n
      ensures Probing(cfg, evs, k) <==> Probing(cfg, prefix, k) && !last.Failure?
      ensures CountSuccesses(evs[k..]) == CountSuccesses(prefix[k..]) + if last.Success? then 1 else 0
    {
      assert forall i :: 0 <= i <= n ==> evs[..i] == prefix[..i];
      assert evs[k..][..|evs[k..]| - 1] == prefix[k..];
    }
    if last.Failure? || Run(cfg, prefix).state != HalfOpen {
      assert Probing(cfg, evs, |evs|) && evs[|evs|..] == [];
      assert Run(cfg, evs).successes == 0;
      forall k: nat | Probing(cfg, evs, k)
        ensures CountSuccesses(evs[k..]) <= 0
      {
        if k <= n {
          assert false;
        }
      }
    } else {
      SuccessCounter(cfg, prefix);
      var k: nat :| Probing(cfg, prefix, k) && CountSuccesses(prefix[k..]) == Run(cfg, prefix).successes;
      assert Probing(cfg, evs, k);
      forall k': nat | Probing(cfg, evs, k')
        ensures CountSuccesses(evs[k'..]) <= Run(cfg, evs).successes
      {
        if k' > n {
          assert evs[k'..] == [];
        }
      }
    }
  }

  ghost predicate SuccessesInARow(cfg: Config, evs: seq<Event>, e: Event, n: int) {
    e.Success? && exists k: nat :: Probing(cfg, evs, k) && CountSuccesses(evs[k..]) + 1 >= n
  }

  /**
    A half-open breaker closes at an event exactly when that event is a success completing
    half_open_max_calls successes since it entered that state or last failed.
  */
  lemma ClosesIff(cfg: Config, evs: seq<Event>, e: Event)
    requires Run(cfg, evs).state == HalfOpen
    ensures Run(cfg, evs + [e]).state == Closed <==> SuccessesInARow(cfg, evs, e, cfg.halfOpenMaxCalls)
  {
    RunSnoc(cfg, evs, e);
    SuccessCounter(cfg, evs);
  }

  /** An open breaker never closes directly; it becomes half open at a query and at no other event. */
  lemma OpenLeavesOnlyByQuery(cfg: Config, evs: seq<Event>, e: Event)
    requires Run(cfg, evs).state == Open
    ensures Run(cfg, evs + [e]).state != Closed
    ensures Run(cfg, evs + [e]).state == HalfOpen ==> e.Query?
  {
    RunSnoc(cfg, evs, e);
  }

  // ---- asking the breaker ------------------------------------------------------------------------

  /** While half open, the success counter stays below the limit, which must allow at least one call. */
  lemma {:induction false} ProbesRemain(cfg: Config, evs: seq<Event>)
    requires cfg.halfOpenMaxCalls >= 1 && Run(cfg, evs).state == HalfOpen
    ensures Run(cfg, evs).successes < cfg.halfOpenMaxCalls
  {
    var prefix := evs[..|evs| - 1];
    if Run(cfg, prefix).state != HalfOpen {
    } else {
      ProbesRemain(cfg, prefix);
    }
  }

  lemma CanExecuteUnlessOpen(cfg: Config, evs: seq<Event>, now: real)
    requires cfg.halfOpenMaxCalls >= 1
    ensures CanExecute(cfg, Run(cfg, evs), now) <==> Look(cfg, Run(cfg, evs), now).state != Open
  {
    if Run(cfg, evs).state == HalfOpen {
      ProbesRemain(cfg, evs);
    }
  }

  function Failures(n: nat, at: real): (evs: seq<Event>)
    ensures |evs| == n && forall i :: 0 <= i < n ==> evs[i] == Failure(at)
  {
    if n == 0 then [] else Failures(n - 1, at) + [Failure(at)]
  }

  lemma {:induction false} FailuresCount(cfg: Config, n: nat, at: real)
    ensures Run(cfg, Failures(n, at)).failures == n && Run(cfg, Failures(n, at)).state != HalfOpen
    ensures n > 0 ==> Run(cfg, Failures(n, at)).lastFailure == Some(at)
    ensures n > 0 && n >= cfg.failureThreshold ==> Run(cfg, Failures(n, at)).state == Open
  {
    if n == 0 {
    } else {
      FailuresCount(cfg, n - 1, at);
      RunSnoc(cfg, Failures(n - 1, at), Failure(at));
      assert Run(cfg, Failures(n, at)) == Fail(cfg, Run(cfg, Failures(n - 1, at)), at);
    }
  }

  /** A shortest run of failures that opens the breaker. */
  function OpeningRun(cfg: Config): seq<Event> {
    Failures(if cfg.failureThreshold > 0 then cfg.failureThreshold else 1, 0.0)
  }

  lemma OpeningRunOpens(cfg: Config)
    ensures Run(cfg, OpeningRun(cfg)).state == Open && Run(cfg, OpeningRun(cfg)).lastFailure == Some(0.0)
  {
    FailuresCount(cfg, |OpeningRun(cfg)|, 0.0);
  }

  /** `can_execute` means "not open" on every reachable breaker exactly if half_open_max_calls is positive. */
  lemma CanExecuteUnlessOpenIff(cfg: Config)
    ensures (forall evs, now :: CanExecute(cfg, Run(cfg, evs), now) <==> Look(cfg, Run(cfg, evs), now).state != Open)
            <==> cfg.halfOpenMaxCalls >= 1
  {
    if cfg.halfOpenMaxCalls >= 1 {
      forall evs, now
        ensures CanExecute(cfg, Run(cfg, evs), now) <==> Look(cfg, Run(cfg, evs), now).state != Open
      {
        CanExecuteUnlessOpen(cfg, evs, now);
      }
    } else {
      OpeningRunOpens(cfg);
      var b, now := Run(cfg, OpeningRun(cfg)), cfg.recoveryTimeout as real;
      assert Look(cfg, b, now).state == HalfOpen && !CanExecute(cfg, b, now);
    }
  }

  // ---- recovery --------------------------------------------------------------------------------

  /** The last success or failure of a history, if any. */
  function LastRecord(evs: seq<Event>): Option<Event> {
    if evs == [] then None
    else if evs[|evs| - 1].Query? then LastRecord(evs[..|evs| - 1])
    else Some(evs[|evs| - 1])
  }

  /** The failure time is that of the last record, and a recorded success erases it. */
  lemma {:induction false} FailureTime(cfg: Config, evs: seq<Event>)
    ensures Run(cfg, evs).lastFailure ==
            match LastRecord(evs) { case Some(Failure(t)) => Some(t) case _ => None }
  {
    if evs == [] {
    } else {
      FailureTime(cfg, evs[..|evs| - 1]);
    }
  }

  /**
    An open breaker whose last record is a failure at `f` rejects every request before `f` plus
    the timeout and allows every one from then on.
  */
  lemma RecoveryExact(cfg: Config, evs: seq<Event>, f: real, now: real)
    requires cfg.halfOpenMaxCalls >= 1
    requires Run(cfg, evs).state == Open && LastRecord(evs) == Some(Failure(f))
    ensures CanExecute(cfg, Run(cfg, evs), now) <==> now >= f + cfg.recoveryTimeout as real
  {
    FailureTime(cfg, evs);
  }

  /**
    A breaker enters HALF_OPEN exactly from OPEN, at a query that comes no earlier than the
    timeout after the failure that is the last record.
  */
  lemma HalfOpensIff(cfg: Config, evs: seq<Event>, e: Event)
    requires Run(cfg, evs).state != HalfOpen
    ensures Run(cfg, evs + [e]).state == HalfOpen <==>
            && Run(cfg, evs).state == Open && e.Query?
            && LastRecord(evs).Some? && LastRecord(evs).value.Failure?
            && e.at - LastRecord(evs).value.at >= cfg.recoveryTimeout as real
  {
    RunSnoc(cfg, evs, e);
    FailureTime(cfg, evs);
  }

  /**
    An open breaker whose last record is a success is stuck: no run of queries and successes,
    however long it waits, leaves OPEN, and every request is rejected.
  */
  lemma {:induction false} StuckOpen(cfg: Config, evs: seq<Event>, more: seq<Event>, now: real)
    requires Run(cfg, evs).state == Open && LastRecord(evs).Some? && LastRecord(evs).value.Success?
    requires forall e :: e in more ==> !e.Failure?
    ensures Run(cfg, evs + more).state == Open && Run(cfg, evs + more).lastFailure == None
    ensures !CanExecute(cfg, Run(cfg, evs + more), now)
  {
    FailureTime(cfg, evs);
    if more == [] {
      assert evs + more == evs;
    } else {
      var n := |more| - 1;
      StuckOpen(cfg, evs, more[..n], now);
      assert evs + more == evs + more[..n] + [more[n]];
      RunSnoc(cfg, evs + more[..n], more[n]);
    }
  }

  /** It recovers, and only recovers, by way of another failure. */
  lemma StuckUntilFailure(cfg: Config, evs: seq<Event>, f: real, now: real)
    requires cfg.halfOpenMaxCalls >= 1
    requires Run(cfg, evs).state == Open && LastRecord(evs).Some? && LastRecord(evs).value.Success?
    ensures CanExecute(cfg, Run(cfg, evs + [Failure(f)]), now) <==> now >= f + cfg.recoveryTimeout as real
  {
    RunSnoc(cfg, evs, Failure(f));
    assert (evs + [Failure(f)])[|evs|] == Failure(f);
    RecoveryExact(cfg, evs + [Failure(f)], f, now);
  }

  /** Under every configuration the stuck state is reached by opening and then recording one success. */
  lemma StuckIsReachable(cfg: Config, at: real)
    ensures var evs := OpeningRun(cfg) + [Success(at)];
      Run(cfg, evs).state == Open && LastRecord(evs) == Some(Success(at))
  {
    OpeningRunOpens(cfg);
    RunSnoc(cfg, OpeningRun(cfg), Success(at));
  }

  // ---- callers that ask first ---------------------------------------------------------------------

  /** Every recorded failure comes right after a query that allowed the request. */
  ghost predicate FailuresAsked(cfg: Config, evs: seq<Event>) {
    forall i :: 0 <= i < |evs| && evs[i].Failure? ==>
      i > 0 && evs[i - 1].Query? && CanExecute(cfg, Run(cfg, evs[..i - 1]), evs[i - 1].at)
  }

  /**
    If failures are recorded only for requests that the breaker allowed, a stuck breaker is stuck
    for good: whatever follows, it stays open and rejects every request.
  */
  lemma {:induction false} StuckForGood(cfg: Config, evs: seq<Event>, k: nat, j: nat, now: real)
    requires FailuresAsked(cfg, evs) && k <= j <= |evs|
    requires Run(cfg, evs[..k]).state == Open && LastRecord(evs[..k]).Some? && LastRecord(evs[..k]).value.Success?
    ensures Run(cfg, evs[..j]).state == Open && !CanExecute(cfg, Run(cfg, evs[..j]), now)
    ensures LastRecord(evs[..j]).Some? && LastRecord(evs[..j]).value.Success?
  {
    FailureTime(cfg, evs[..k]);
    if j == k {
    } else {
      StuckForGood(cfg, evs, k, j - 1, now);
      var e := evs[j - 1];
      assert evs[..j] == evs[..j - 1] + [e] && evs[..j][..j - 1] == evs[..j - 1];
      FailureTime(cfg, evs[..j - 1]);
      RunSnoc(cfg, evs[..j - 1], e);
      if j >= 2 {
        assert evs[..j - 1][..j - 2] == evs[..j - 2] && evs[..j - 1][j - 2] == evs[j - 2];
      }
      if e.Failure? {
        assert false;  // the query before it would have been rejected
      }
    }
  }

  /** Failures of requests that were asked about first. */
  function AskedFailures(n: nat, at: real): (evs: seq<Event>)
    ensures |evs| == 2 * n
  {
    if n == 0 then [] else AskedFailures(n - 1, at) + [Query(at), Failure(at)]
  }

  /** Adding a query or a success, or a failure right after a query that allowed the request. */
  lemma AskedSnoc(cfg: Config, evs: seq<Event>, e: Event)
    requires FailuresAsked(cfg, evs)
    requires e.Failure? ==>
      && evs != [] && evs[|evs| - 1].Query?
      && CanExecute(cfg, Run(cfg, evs[..|evs| - 1]), evs[|evs| - 1].at)
    ensures FailuresAsked(cfg, evs + [e])
  {
    forall i | 0 <= i < |evs + [e]| && (evs + [e])[i].Failure?
      ensures i > 0 && (evs + [e])[i - 1].Query?
        && CanExecute(cfg, Run(cfg, (evs + [e])[..i - 1]), (evs + [e])[i - 1].at)
    {
      if i < |evs| {
        assert evs[i].Failure?;
      }
      assert (evs + [e])[..i - 1] == evs[..i - 1];
    }
  }

  /** A request that a closed breaker allows and that fails. */
  lemma AskAndFail(cfg: Config, evs: seq<Event>, at: real)
    requires FailuresAsked(cfg, evs) && Run(cfg, evs).state == Closed
    ensures FailuresAsked(cfg, evs + [Query(at)] + [Failure(at)])
    ensures Run(cfg, evs + [Query(at)] + [Failure(at)]) == Fail(cfg, Run(cfg, evs), at)
  {
    RunSnoc(cfg, evs, Query(at));
    RunSnoc(cfg, evs + [Query(at)], Failure(at));
    AskedSnoc(cfg, evs, Query(at));
    assert (evs + [Query(at)])[..|evs|] == evs;
    AskedSnoc(cfg, evs + [Query(at)], Failure(at));
  }

  lemma {:induction false} AskedFailuresRun(cfg: Config, n: nat, at: real)
    requires n <= 1 || n <= cfg.failureThreshold
    ensures FailuresAsked(cfg, AskedFailures(n, at))
    ensures var b := Run(cfg, AskedFailures(n, at));
      b.failures == n && b.state == (if n > 0 && n >= cfg.failureThreshold then Open else Closed)
      && (n > 0 ==> b.lastFailure == Some(at))
  {
    if n == 0 {
    } else {
      AskedFailuresRun(cfg, n - 1, at);
      AskAndFail(cfg, AskedFailures(n - 1, at), at);
      assert AskedFailures(n, at) == AskedFailures(n - 1, at) + [Query(at)] + [Failure(at)];
    }
  }

  /**
    The stuck state is reached by such callers as well, under every configuration: open the breaker,
    then record a success.
  */
  lemma StuckReachableWhenAsked(cfg: Config, at: real)
    ensures var evs := AskedFailures(if cfg.failureThreshold > 0 then cfg.failureThreshold else 1, at) + [Success(at)];
      FailuresAsked(cfg, evs) && Run(cfg, evs).state == Open && LastRecord(evs) == Some(Success(at))
  {
    var failed := AskedFailures(if cfg.failureThreshold > 0 then cfg.failureThreshold else 1, at);
    AskedFailuresRun(cfg, if cfg.failureThreshold > 0 then cfg.failureThreshold else 1, at);
    RunSnoc(cfg, failed, Success(at));
    AskedSnoc(cfg, failed, Success(at));
  }

  // ---- the class -------------------------------------------------------------------------------

  class CircuitBreaker {
    const config: Config
    var state: State
    var failureCount: nat
    var successCount: nat
    var lastFailureTime: Option<real>

    constructor (config: Config)
      ensures this.config == config && Now() == INITIAL
    {
      this.config := config;
      state, failureCount, successCount, lastFailureTime := Closed, 0, 0, None;
    }

    function Now(): Breaker
      reads this
    {
      Breaker(state, failureCount, successCount, lastFailureTime)
    }

    method GetState(now: real) returns (s: State)
      modifies this
      ensures Now() == Look(config, old(Now()), now) && s == state
    {
      if state == Open {
        if lastFailureTime == None {
          return state;
        }
        var elapsed := now - lastFailureTime.value;
        if elapsed >= config.recoveryTimeout as real {
          state := HalfOpen;
          failureCount := 0;
          successCount := 0;
        }
      }
      return state;
    }

    method MayExecute(now: real) returns (ok: bool)
      modifies this
      ensures Now() == Apply(config, old(Now()), Query(now)) && ok == CanExecute(config, old(Now()), now)
    {
      var current := GetState(now);
      match current
      case Closed => ok := true;
      case Open => ok := false;
      case HalfOpen => ok := successCount < config.halfOpenMaxCalls;
    }

    method RecordSuccess(now: real)
      modifies this
      ensures Now() == Apply(config, old(Now()), Success(now))
    {
      failureCount := 0;
      successCount := successCount + 1;
      lastFailureTime := None;
      var current := GetState(now);
      if current == HalfOpen {
        if successCount >= config.halfOpenMaxCalls {
          state := Closed;
          successCount := 0;
        }
      }
    }

    method RecordFailure(now: real)
      modifies this
      ensures Now() == Apply(config, old(Now()), Failure(now))
    {
      failureCount := failureCount + 1;
      lastFailureTime := Some(now);
      successCount := 0;
      if failureCount >= config.failureThreshold {
        state := Open;
      }
    }
  }
}
