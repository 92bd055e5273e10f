/**
  The token-bucket limiter with eviction of stale buckets. Token counts and times are reals;
  each call reads the clock once.
*/
module RateLimiting {
  import opened Options

  type Client = string

  const STALE_TTL := 600.0

  datatype Config = Config(requestsPerMinute: nat, burstSize: nat) {
    function Capacity(): real { burstSize as real }

    /** Tokens per second. */
    function Rate(): real { requestsPerMinute as real / 60.0 }

    /** A bucket refills completely within the time after which it counts as stale. */
    predicate RefillsBeforeStale() { 10 * requestsPerMinute >= burstSize }
  }

  function Min(a: real, b: real): real {
    if a <= b then a else b
  }

  // ---- one bucket -----------------------------------------------------------------------------

  datatype Bucket = Bucket(tokens: real, last: real)

  predicate Sane(cfg: Config, b: Bucket) {
    0.0 <= b.tokens <= cfg.Capacity()
  }

  /** What accrues between two times. */
  function Accrued(cfg: Config, from: real, to: real): real {
    (to - from) * cfg.Rate()
  }

  function Refill(cfg: Config, b: Bucket, now: real): Bucket {
    Bucket(Min(cfg.Capacity(), b.tokens + Accrued(cfg, b.last, now)), now)
  }

  lemma Accrual(cfg: Config, a: real, b: real, c: real)
    requires a <= b <= c
    ensures Accrued(cfg, a, c) == Accrued(cfg, a, b) + Accrued(cfg, b, c)
    ensures 0.0 <= Accrued(cfg, a, b) && 0.0 <= Accrued(cfg, b, c)
    ensures Accrued(cfg, c, c) == 0.0
  {
    Distributes(b - a, c - b, cfg.Rate());
    assert (c - a) == (b - a) + (c - b);
  }

  lemma Distributes(x: real, y: real, z: real)
    requires x >= 0.0 && y >= 0.0 && z >= 0.0
    ensures (x + y) * z == x * z + y * z && x * z >= 0.0 && y * z >= 0.0
  {
  }

  /** Refilling in two steps equals refilling once. */
  lemma RefillTwice(cfg: Config, b: Bucket, t: real, u: real)
    requires Sane(cfg, b) && b.last <= t <= u
    ensures Refill(cfg, Refill(cfg, b, t), u) == Refill(cfg, b, u)
    ensures Sane(cfg, Refill(cfg, b, t))
  {
    Accrual(cfg, b.last, t, u);
  }

  lemma RefillSane(cfg: Config, b: Bucket, u: real)
    requires Sane(cfg, b) && b.last <= u
    ensures Sane(cfg, Refill(cfg, b, u)) && Refill(cfg, b, u).tokens >= b.tokens
  {
    Accrual(cfg, b.last, u, u);
  }

  lemma RefillGrows(cfg: Config, b: Bucket, t: real, u: real)
    requires Sane(cfg, b) && b.last <= t <= u
    ensures Refill(cfg, b, u).tokens <= Refill(cfg, b, t).tokens + Accrued(cfg, t, u)
  {
    Accrual(cfg, b.last, t, u);
  }

  lemma RefillNow(cfg: Config, b: Bucket)
    requires Sane(cfg, b)
    ensures Refill(cfg, b, b.last) == b
  {
    Accrual(cfg, b.last, b.last, b.last);
  }

  /** The delay that `get_retry_after` reports once the bucket is refilled; None is a division by zero. */
  function Delay(cfg: Config, b: Bucket): Answer {
    if b.tokens >= 1.0 then Wait(0.0)
    else if cfg.Rate() == 0.0 then DivisionByZero
    else Wait((1.0 - b.tokens) / cfg.Rate())
  }

  /** Any number of later `get_retry_after` calls. */
  function RefillAll(cfg: Config, b: Bucket, times: seq<real>): Bucket
    decreases |times|
  {
    if times == [] then b else RefillAll(cfg, Refill(cfg, b, times[0]), times[1..])
  }

  predicate Ascending(from: real, times: seq<real>, to: real)
    decreases |times|
  {
    if times == [] then from <= to else from <= times[0] && Ascending(times[0], times[1..], to)
  }

  lemma {:induction false} RefillAllThenOnce(cfg: Config, b: Bucket, times: seq<real>, u: real)
    requires Sane(cfg, b) && Ascending(b.last, times, u)
    ensures Refill(cfg, RefillAll(cfg, b, times), u) == Refill(cfg, b, u)
    ensures b.last <= u
    decreases |times|
  {
    if times == [] {
    } else {
      Accrual(cfg, b.last, times[0], times[0]);
      RefillAllThenOnce(cfg, Refill(cfg, b, times[0]), times[1..], u);
      RefillTwice(cfg, b, times[0], u);
    }
  }

  /**
    The delay is exact: however often the bucket is looked at meanwhile, a one-token request at
    a later time `u` finds a token if and only if at least the reported delay has passed.
  */
  lemma RetryDelayExact(cfg: Config, b: Bucket, now: real, times: seq<real>, u: real)
    requires Sane(cfg, b) && b.last <= now && cfg.requestsPerMinute > 0 && cfg.burstSize >= 1
    requires Ascending(now, times, u)
    ensures var b1 := Refill(cfg, b, now);
      && Delay(cfg, b1).Wait?
      && (Refill(cfg, RefillAll(cfg, b1, times), u).tokens >= 1.0 <==> u >= now + Delay(cfg, b1).seconds)
  {
    RefillSane(cfg, b, now);
    RefillAllThenOnce(cfg, Refill(cfg, b, now), times, u);
    DelayDecides(cfg, Refill(cfg, b, now), u);
  }

  lemma DelayDecides(cfg: Config, b: Bucket, u: real)
    requires Sane(cfg, b) && b.last <= u && cfg.requestsPerMinute > 0 && cfg.burstSize >= 1
    ensures Delay(cfg, b).Wait?
    ensures Refill(cfg, b, u).tokens >= 1.0 <==> u >= b.last + Delay(cfg, b).seconds
  {
    var rate := cfg.Rate();
    assert rate > 0.0;
    if b.tokens < 1.0 {
      DivideOut(1.0 - b.tokens, rate, u - b.last);
    } else {
      RefillSane(cfg, b, u);
    }
  }

  lemma DivideOut(need: real, rate: real, wait: real)
    requires rate > 0.0
    ensures wait * rate >= need <==> wait >= need / rate
  {
    var q := need / rate;
    assert q * rate == need;
    if wait >= q {
      assert (wait - q) * rate >= 0.0;
    } else {
      assert (q - wait) * rate > 0.0;
    }
  }

  /** `int(retry_after) + 1`, the value of the Retry-After header. */
  function HeaderSeconds(delay: real): int
    requires delay >= 0.0
  {
    delay.Floor + 1
  }

  /** A client that waits the header's seconds is always served (Retry-After: RFC 9110, section 10.2.3). */
  lemma RetryHeaderSuffices(cfg: Config, b: Bucket, now: real, times: seq<real>, u: real)
    requires Sane(cfg, b) && b.last <= now && cfg.requestsPerMinute > 0 && cfg.burstSize >= 1
    requires Ascending(now, times, u)
    ensures var d := Delay(cfg, Refill(cfg, b, now));
      && d.Wait? && d.seconds >= 0.0
      && (u >= now + HeaderSeconds(d.seconds) as real ==>
            Refill(cfg, RefillAll(cfg, Refill(cfg, b, now), times), u).tokens >= 1.0)
  {
    RetryDelayExact(cfg, b, now, times, u);
    var b1 := Refill(cfg, b, now);
    if b1.tokens < 1.0 {
      DivideOut(1.0 - b1.tokens, cfg.Rate(), 0.0);
    }
  }

  /** The capacity condition is needed: a bucket of capacity zero never serves, whatever the delay says. */
  lemma ZeroCapacityNeverServes(cfg: Config, b: Bucket, u: real)
    requires cfg.burstSize == 0
    ensures Refill(cfg, b, u).tokens < 1.0
  {
  }

  // ---- the limiter ------------------------------------------------------------------------------

  datatype Op = IsAllowed(client: Client) | RetryAfter(client: Client)

  datatype Event = Event(op: Op, now: real)

  datatype Answer = Allowed(ok: bool) | Wait(seconds: real) | DivisionByZero

  datatype Limiter = Limiter(buckets: map<Client, Bucket>, access: map<Client, real>)

  const EMPTY := Limiter(map[], map[])

  predicate Stale(access: map<Client, real>, c: Client, now: real)
    requires c in access
  {
    now - access[c] > STALE_TTL
  }

  function Cleanup(st: Limiter, now: real): Limiter {
    Limiter(map c | c in st.buckets && !(c in st.access && Stale(st.access, c, now)) :: st.buckets[c],
            map c | c in st.access && !Stale(st.access, c, now) :: st.access[c])
  }

  function GetOrCreate(cfg: Config, st: Limiter, c: Client, now: real): (r: Limiter)
    ensures c in r.buckets
  {
    if c in st.buckets then st
    else Limiter(st.buckets[c := Bucket(cfg.Capacity(), now)], st.access[c := now])
  }

  /** A refilled bucket after `try_consume(1)`. */
  function Spent(b: Bucket): Bucket {
    if b.tokens >= 1.0 then b.(tokens := b.tokens - 1.0) else b
  }

  /** `is_allowed` after the cleanup. */
  function Serve(cfg: Config, st: Limiter, c: Client, now: real): (Limiter, Answer) {
    var s1 := GetOrCreate(cfg, st, c, now);
    var b := Refill(cfg, s1.buckets[c], now);
    var ok := b.tokens >= 1.0;
    (Limiter(s1.buckets[c := Spent(b)], s1.access[c := now]), Allowed(ok))
  }

  function Inspect(cfg: Config, st: Limiter, c: Client, now: real): (Limiter, Answer) {
    var s1 := GetOrCreate(cfg, st, c, now);
    var b := Refill(cfg, s1.buckets[c], now);
    (s1.(buckets := s1.buckets[c := b]), Delay(cfg, b))
  }

  /** One call; `evict` tells the limiter of the source from one that never deletes a bucket. */
  function Step(cfg: Config, st: Limiter, e: Event, evict: bool): (Limiter, Answer) {
    match e.op
    case IsAllowed(c) => Serve(cfg, if evict then Cleanup(st, e.now) else st, c, e.now)
    case RetryAfter(c) => Inspect(cfg, st, c, e.now)
  }

  function Answers(cfg: Config, st: Limiter, evs: seq<Event>, evict: bool): (r: seq<Answer>)
    ensures |r| == |evs|
    decreases |evs|
  {
    if evs == [] then []
    else
      var (s1, a) := Step(cfg, st, evs[0], evict);
      [a] + Answers(cfg, s1, evs[1..], evict)
  }

  /** The clock never runs backwards. */
  predicate Ordered(evs: seq<Event>) {
    forall i, j :: 0 <= i < j < |evs| ==> evs[i].now <= evs[j].now
  }

  // ---- eviction is unobservable ---------------------------------------------------------------

  /** A live bucket holds at least what accrued since its last access. */
  ghost predicate LiveOk(cfg: Config, b: Bucket, access: real, now: real) {
    && Sane(cfg, b) && access <= b.last <= now
    && b.tokens >= Min(cfg.Capacity(), Accrued(cfg, access, b.last))
  }

  /** A bucket that has become full again. */
  ghost predicate FullBy(cfg: Config, b: Bucket, now: real) {
    Sane(cfg, b) && b.last <= now && b.tokens + Accrued(cfg, b.last, now) >= cfg.Capacity()
  }

  /** The evicting limiter agrees with the other one on its live buckets; the evicted ones are full. */
  ghost predicate Simulates(cfg: Config, st: Limiter, full: Limiter, now: real) {
    && st.buckets.Keys == st.access.Keys && st.buckets.Keys <= full.buckets.Keys
    && (forall c :: c in st.buckets ==>
          st.buckets[c] == full.buckets[c] && LiveOk(cfg, st.buckets[c], st.access[c], now))
    && (forall c :: c in full.buckets && c !in st.buckets ==> FullBy(cfg, full.buckets[c], now))
  }

  lemma LiveLater(cfg: Config, b: Bucket, access: real, now: real, u: real)
    requires LiveOk(cfg, b, access, now) && now <= u
    ensures LiveOk(cfg, b, access, u) && LiveOk(cfg, Refill(cfg, b, u), access, u)
  {
    Accrual(cfg, access, b.last, u);
  }

  lemma FullLater(cfg: Config, b: Bucket, now: real, u: real)
    requires FullBy(cfg, b, now) && now <= u
    ensures FullBy(cfg, b, u) && Refill(cfg, b, u) == Bucket(cfg.Capacity(), u)
  {
    Accrual(cfg, b.last, now, u);
  }

  lemma StaleIsFull(cfg: Config, b: Bucket, access: real, now: real)
    requires LiveOk(cfg, b, access, now) && cfg.RefillsBeforeStale()
    requires now - access > STALE_TTL
    ensures FullBy(cfg, b, now)
  {
    Accrual(cfg, access, b.last, now);
    Accrual(cfg, access, access + STALE_TTL, now);
    StaleTime(cfg, access);
  }

  lemma StaleTime(cfg: Config, access: real)
    requires cfg.RefillsBeforeStale()
    ensures Accrued(cfg, access, access + STALE_TTL) >= cfg.Capacity()
  {
    AccruedWhileStale(cfg, access);
  }

  lemma CleanupSimulates(cfg: Config, st: Limiter, full: Limiter, now: real, u: real)
    requires Simulates(cfg, st, full, now) && now <= u && cfg.RefillsBeforeStale()
    ensures Simulates(cfg, Cleanup(st, u), full, u)
  {
    var s1 := Cleanup(st, u);
    forall c | c in s1.buckets
      ensures LiveOk(cfg, s1.buckets[c], s1.access[c], u)
    {
      LiveLater(cfg, st.buckets[c], st.access[c], now, u);
    }
    forall c | c in full.buckets && c !in s1.buckets
      ensures FullBy(cfg, full.buckets[c], u)
    {
      if c in st.buckets {
        LiveLater(cfg, st.buckets[c], st.access[c], now, u);
        StaleIsFull(cfg, st.buckets[c], st.access[c], u);
      } else {
        FullLater(cfg, full.buckets[c], now, u);
      }
    }
  }

  lemma LaterSimulates(cfg: Config, st: Limiter, full: Limiter, now: real, u: real)
    requires Simulates(cfg, st, full, now) && now <= u
    ensures Simulates(cfg, st, full, u)
  {
    forall c | c in st.buckets
      ensures LiveOk(cfg, st.buckets[c], st.access[c], u)
    {
      LiveLater(cfg, st.buckets[c], st.access[c], now, u);
    }
    forall c | c in full.buckets && c !in st.buckets
      ensures FullBy(cfg, full.buckets[c], u)
    {
      FullLater(cfg, full.buckets[c], now, u);
    }
  }

  /** Looking up a client and refilling gives the same bucket on both sides. */
  lemma SameBucket(cfg: Config, st: Limiter, full: Limiter, c: Client, u: real)
    requires Simulates(cfg, st, full, u)
    ensures var s1, f1 := GetOrCreate(cfg, st, c, u), GetOrCreate(cfg, full, c, u);
      && Refill(cfg, s1.buckets[c], u) == Refill(cfg, f1.buckets[c], u)
      && c in s1.access && LiveOk(cfg, Refill(cfg, s1.buckets[c], u), s1.access[c], u)
  {
    if c in st.buckets {
      LiveLater(cfg, st.buckets[c], st.access[c], u, u);
    } else {
      Accrual(cfg, u, u, u);
      if c in full.buckets {
        FullLater(cfg, full.buckets[c], u, u);
      }
    }
  }

  lemma ServeSimulates(cfg: Config, st: Limiter, full: Limiter, c: Client, now: real)
    requires Simulates(cfg, st, full, now)
    ensures Serve(cfg, st, c, now).1 == Serve(cfg, full, c, now).1
    ensures Simulates(cfg, Serve(cfg, st, c, now).0, Serve(cfg, full, c, now).0, now)
  {
    SameBucket(cfg, st, full, c, now);
    var b := Spent(Refill(cfg, GetOrCreate(cfg, st, c, now).buckets[c], now));
    SpentIsLive(cfg, Refill(cfg, GetOrCreate(cfg, st, c, now).buckets[c], now), now);
    Restored(cfg, st, full, c, b, now, now, full.access[c := now]);
    ServeStores(cfg, st, c, now);
    ServeStores(cfg, full, c, now);
  }

  lemma ServeStores(cfg: Config, st: Limiter, c: Client, now: real)
    ensures var b := Spent(Refill(cfg, GetOrCreate(cfg, st, c, now).buckets[c], now));
      Serve(cfg, st, c, now).0 == Limiter(st.buckets[c := b], st.access[c := now])
  {
  }

  lemma SpentIsLive(cfg: Config, b: Bucket, now: real)
    requires Sane(cfg, b) && b.last == now
    ensures LiveOk(cfg, Spent(b), now, now)
  {
    Accrual(cfg, now, now, now);
  }

  lemma InspectSimulates(cfg: Config, st: Limiter, full: Limiter, c: Client, now: real)
    requires Simulates(cfg, st, full, now)
    ensures Inspect(cfg, st, c, now).1 == Inspect(cfg, full, c, now).1
    ensures Simulates(cfg, Inspect(cfg, st, c, now).0, Inspect(cfg, full, c, now).0, now)
  {
    SameBucket(cfg, st, full, c, now);
    var s1 := GetOrCreate(cfg, st, c, now);
    var b := Refill(cfg, s1.buckets[c], now);
    assert s1.access == st.access[c := s1.access[c]];
    Restored(cfg, st, full, c, b, s1.access[c], now, Inspect(cfg, full, c, now).0.access);
  }

  /** Storing the same live bucket on both sides keeps the simulation. */
  lemma Restored(cfg: Config, st: Limiter, full: Limiter, c: Client, b: Bucket, access: real, u: real,
                 fullAccess: map<Client, real>)
    requires Simulates(cfg, st, full, u) && LiveOk(cfg, b, access, u)
    ensures Simulates(cfg, Limiter(st.buckets[c := b], st.access[c := access]),
                      Limiter(full.buckets[c := b], fullAccess), u)
  {
  }

  lemma StepSimulates(cfg: Config, st: Limiter, full: Limiter, now: real, e: Event)
    requires Simulates(cfg, st, full, now) && now <= e.now && cfg.RefillsBeforeStale()
    ensures Step(cfg, st, e, true).1 == Step(cfg, full, e, false).1
    ensures Simulates(cfg, Step(cfg, st, e, true).0, Step(cfg, full, e, false).0, e.now)
  {
    if e.op.IsAllowed? {
      CleanupSimulates(cfg, st, full, now, e.now);
      ServeSimulates(cfg, Cleanup(st, e.now), full, e.op.client, e.now);
    } else {
      LaterSimulates(cfg, st, full, now, e.now);
      InspectSimulates(cfg, st, full, e.op.client, e.now);
    }
  }

  lemma {:induction false} RunSimulates(cfg: Config, st: Limiter, full: Limiter, now: real, evs: seq<Event>)
    requires Simulates(cfg, st, full, now) && cfg.RefillsBeforeStale()
    requires Ordered(evs) && (evs != [] ==> now <= evs[0].now)
    ensures Answers(cfg, st, evs, true) == Answers(cfg, full, evs, false)
    decreases |evs|
  {
    if evs == [] {
    } else {
      StepSimulates(cfg, st, full, now, evs[0]);
      RunSimulates(cfg, Step(cfg, st, evs[0], true).0, Step(cfg, full, evs[0], false).0, evs[0].now, evs[1..]);
    }
  }

  /** If a bucket refills before it is stale, no run can tell the limiter from one that never deletes. */
  lemma EvictionUnobservable(cfg: Config, evs: seq<Event>)
    requires Ordered(evs) && cfg.RefillsBeforeStale()
    ensures Answers(cfg, EMPTY, evs, true) == Answers(cfg, EMPTY, evs, false)
  {
    RunSimulates(cfg, EMPTY, EMPTY, if evs == [] then 0.0 else evs[0].now, evs);
  }

  // ---- the window bound ----------------------------------------------------------------------

  /** How many requests of `c` at times in `[lo, hi]` were allowed. */
  function AllowedIn(evs: seq<Event>, answers: seq<Answer>, c: Client, lo: real, hi: real): nat
    requires |answers| == |evs|
  {
    if evs == [] then 0
    else (if Hit(evs[0], answers[0], c, lo, hi) then 1 else 0) + AllowedIn(evs[1..], answers[1..], c, lo, hi)
  }

  predicate Hit(e: Event, a: Answer, c: Client, lo: real, hi: real) {
    e.op == IsAllowed(c) && a == Allowed(true) && lo <= e.now <= hi
  }

  predicate AllSane(cfg: Config, st: Limiter, now: real) {
    forall c :: c in st.buckets ==> Sane(cfg, st.buckets[c]) && st.buckets[c].last <= now
  }

  /** Tokens that client `c` could spend at `now`. */
  function Available(cfg: Config, st: Limiter, c: Client, now: real): real {
    if c in st.buckets then Refill(cfg, st.buckets[c], now).tokens else cfg.Capacity()
  }

  /** An upper bound on the requests of `c` still to be allowed in the window. */
  function Potential(cfg: Config, st: Limiter, c: Client, now: real, lo: real, hi: real): real {
    if now > hi then 0.0
    else if now >= lo then Available(cfg, st, c, now) + Accrued(cfg, now, hi)
    else cfg.Capacity() + Accrued(cfg, lo, hi)
  }

  lemma AvailableBounds(cfg: Config, st: Limiter, c: Client, now: real)
    requires AllSane(cfg, st, now)
    ensures 0.0 <= Available(cfg, st, c, now) <= cfg.Capacity()
  {
    if c in st.buckets {
      RefillSane(cfg, st.buckets[c], now);
    }
  }

  lemma AvailableGrows(cfg: Config, st: Limiter, c: Client, now: real, u: real)
    requires AllSane(cfg, st, now) && now <= u
    ensures Available(cfg, st, c, u) <= Available(cfg, st, c, now) + Accrued(cfg, now, u)
  {
    if c in st.buckets {
      RefillGrows(cfg, st.buckets[c], now, u);
    } else {
      Accrual(cfg, now, u, u);
    }
  }

  lemma PotentialNonnegative(cfg: Config, st: Limiter, c: Client, now: real, lo: real, hi: real)
    requires AllSane(cfg, st, now) && lo <= hi
    ensures 0.0 <= Potential(cfg, st, c, now, lo, hi)
  {
    AvailableBounds(cfg, st, c, now);
    if lo <= now <= hi {
      Accrual(cfg, now, hi, hi);
    } else {
      Accrual(cfg, lo, hi, hi);
    }
  }

  lemma PotentialShrinks(cfg: Config, st: Limiter, c: Client, now: real, u: real, lo: real, hi: real)
    requires AllSane(cfg, st, now) && now <= u && lo <= hi
    ensures Potential(cfg, st, c, u, lo, hi) <= Potential(cfg, st, c, now, lo, hi)
  {
    if u > hi {
      PotentialNonnegative(cfg, st, c, now, lo, hi);
    } else if lo <= now {
      AvailableGrows(cfg, st, c, now, u);
      Accrual(cfg, now, u, hi);
    } else if lo <= u {
      AvailableBounds(cfg, st, c, u);
      Accrual(cfg, lo, u, hi);
    }
  }

  /**
    One call on a limiter that never deletes, in terms of the tokens available: a request is
    allowed exactly if its client has a token, which it then spends; a refused request and a
    question about the delay spend nothing; and no other client is affected.
  */
  lemma StepExact(cfg: Config, st: Limiter, e: Event, c: Client)
    requires AllSane(cfg, st, e.now)
    ensures var (s1, a) := Step(cfg, st, e, false);
      var found := Available(cfg, st, e.op.client, e.now);
      && AllSane(cfg, s1, e.now)
      && a == (if e.op.IsAllowed? then Allowed(found >= 1.0) else Delay(cfg, Bucket(found, e.now)))
      && Available(cfg, s1, c, e.now)
         == Available(cfg, st, c, e.now) - if e.op == IsAllowed(c) && found >= 1.0 then 1.0 else 0.0
  {
    var d := e.op.client;
    var s0 := GetOrCreate(cfg, st, d, e.now);
    var b := Refill(cfg, s0.buckets[d], e.now);
    AvailableBounds(cfg, st, d, e.now);
    RefillNow(cfg, Bucket(cfg.Capacity(), e.now));
    assert b == Bucket(Available(cfg, st, d, e.now), e.now);
    var s1 := Step(cfg, st, e, false).0;
    RefillNow(cfg, s1.buckets[d]);
    assert forall x :: x in s1.buckets <==> x in st.buckets || x == d;
    assert c != d ==> Available(cfg, s1, c, e.now) == Available(cfg, st, c, e.now);
  }

  /** Between calls, tokens accrue up to the capacity. */
  lemma AvailableLater(cfg: Config, st: Limiter, c: Client, now: real, u: real)
    requires AllSane(cfg, st, now) && now <= u
    ensures Available(cfg, st, c, u) == Min(cfg.Capacity(), Available(cfg, st, c, now) + Accrued(cfg, now, u))
  {
    if c in st.buckets {
      Accrual(cfg, st.buckets[c].last, now, u);
    } else {
      Accrual(cfg, now, u, u);
    }
  }

  lemma SaneLater(cfg: Config, st: Limiter, now: real, u: real)
    requires AllSane(cfg, st, now) && now <= u
    ensures AllSane(cfg, st, u)
  {
  }

  lemma StepSpends(cfg: Config, st: Limiter, e: Event, c: Client, lo: real, hi: real)
    requires AllSane(cfg, st, e.now) && lo <= hi
    ensures var (s1, a) := Step(cfg, st, e, false);
      && AllSane(cfg, s1, e.now)
      && Potential(cfg, s1, c, e.now, lo, hi) + (if Hit(e, a, c, lo, hi) then 1.0 else 0.0)
         <= Potential(cfg, st, c, e.now, lo, hi)
  {
    StepExact(cfg, st, e, c);
  }

  lemma {:induction false} WindowPotential(cfg: Config, st: Limiter, now: real, evs: seq<Event>, c: Client, lo: real,
                                           hi: real)
    requires AllSane(cfg, st, now) && lo <= hi
    requires Ordered(evs) && (evs != [] ==> now <= evs[0].now)
    ensures AllowedIn(evs, Answers(cfg, st, evs, false), c, lo, hi) as real <= Potential(cfg, st, c, now, lo, hi)
    decreases |evs|
  {
    if evs == [] {
      PotentialNonnegative(cfg, st, c, now, lo, hi);
    } else {
      var e := evs[0];
      PotentialShrinks(cfg, st, c, now, e.now, lo, hi);
      StepSpends(cfg, st, e, c, lo, hi);
      WindowPotential(cfg, Step(cfg, st, e, false).0, e.now, evs[1..], c, lo, hi);
    }
  }

  function WindowLimit(cfg: Config, d: real): real {
    cfg.burstSize as real + d * cfg.Rate()
  }

  lemma PlainWindowBound(cfg: Config, evs: seq<Event>, c: Client, lo: real, hi: real)
    requires Ordered(evs) && lo <= hi
    ensures AllowedIn(evs, Answers(cfg, EMPTY, evs, false), c, lo, hi) as real <= WindowLimit(cfg, hi - lo)
  {
    var now := if evs == [] || lo <= evs[0].now then lo - 1.0 else evs[0].now;
    WindowPotential(cfg, EMPTY, now, evs, c, lo, hi);
  }

  /**
    Over whole runs, in every time interval of length `d` at most burst_size plus d times
    requests_per_minute / 60 requests of any one client are allowed.
  */
  lemma WindowBound(cfg: Config, evs: seq<Event>, c: Client, lo: real, hi: real)
    requires Ordered(evs) && lo <= hi && cfg.RefillsBeforeStale()
    ensures AllowedIn(evs, Answers(cfg, EMPTY, evs, true), c, lo, hi) as real <= WindowLimit(cfg, hi - lo)
  {
    EvictionUnobservable(cfg, evs);
    PlainWindowBound(cfg, evs, c, lo, hi);
  }

  // ---- what does not count --------------------------------------------------------------------

  ghost const EVERYBODY: iset<Client> := iset c: Client | true

  /** In two limiters every client of a set has the same tokens. */
  ghost predicate SameTokens(cfg: Config, a: Limiter, b: Limiter, who: iset<Client>, now: real) {
    forall c :: c in who ==> Available(cfg, a, c, now) == Available(cfg, b, c, now)
  }

  lemma SameTokensLater(cfg: Config, a: Limiter, b: Limiter, who: iset<Client>, now: real, u: real)
    requires AllSane(cfg, a, now) && AllSane(cfg, b, now) && SameTokens(cfg, a, b, who, now) && now <= u
    ensures AllSane(cfg, a, u) && AllSane(cfg, b, u) && SameTokens(cfg, a, b, who, u)
  {
    forall c | c in who
      ensures Available(cfg, a, c, u) == Available(cfg, b, c, u)
    {
      AvailableLater(cfg, a, c, now, u);
      AvailableLater(cfg, b, c, now, u);
    }
  }

  /** A call of a client in the set is answered alike, and leaves the two limiters alike. */
  lemma SameStep(cfg: Config, a: Limiter, b: Limiter, who: iset<Client>, e: Event)
    requires AllSane(cfg, a, e.now) && AllSane(cfg, b, e.now) && SameTokens(cfg, a, b, who, e.now)
    requires e.op.client in who
    ensures Step(cfg, a, e, false).1 == Step(cfg, b, e, false).1
    ensures var a1, b1 := Step(cfg, a, e, false).0, Step(cfg, b, e, false).0;
      AllSane(cfg, a1, e.now) && AllSane(cfg, b1, e.now) && SameTokens(cfg, a1, b1, who, e.now)
  {
    StepExact(cfg, a, e, e.op.client);
    StepExact(cfg, b, e, e.op.client);
    forall c | c in who
      ensures Available(cfg, Step(cfg, a, e, false).0, c, e.now) == Available(cfg, Step(cfg, b, e, false).0, c, e.now)
    {
      StepExact(cfg, a, e, c);
      StepExact(cfg, b, e, c);
    }
  }

  /** A call that is not an allowed request of a client in the set changes nothing for the set. */
  lemma IdleStep(cfg: Config, a: Limiter, b: Limiter, who: iset<Client>, e: Event)
    requires AllSane(cfg, a, e.now) && AllSane(cfg, b, e.now) && SameTokens(cfg, a, b, who, e.now)
    requires e.op.client !in who || Step(cfg, a, e, false).1 != Allowed(true)
    ensures AllSane(cfg, Step(cfg, a, e, false).0, e.now)
    ensures SameTokens(cfg, Step(cfg, a, e, false).0, b, who, e.now)
  {
    StepExact(cfg, a, e, e.op.client);
    forall c | c in who
      ensures Available(cfg, Step(cfg, a, e, false).0, c, e.now) == Available(cfg, b, c, e.now)
    {
      StepExact(cfg, a, e, c);
    }
  }

  lemma {:induction false} SameAnswers(cfg: Config, a: Limiter, b: Limiter, now: real, evs: seq<Event>)
    requires AllSane(cfg, a, now) && AllSane(cfg, b, now) && SameTokens(cfg, a, b, EVERYBODY, now)
    requires Ordered(evs) && (evs != [] ==> now <= evs[0].now)
    ensures Answers(cfg, a, evs, false) == Answers(cfg, b, evs, false)
    decreases |evs|
  {
    if evs == [] {
    } else {
      SameTokensLater(cfg, a, b, EVERYBODY, now, evs[0].now);
      SameStep(cfg, a, b, EVERYBODY, evs[0]);
      SameAnswers(cfg, Step(cfg, a, evs[0], false).0, Step(cfg, b, evs[0], false).0, evs[0].now, evs[1..]);
    }
  }

  lemma {:induction false} SkipOne(cfg: Config, st: Limiter, now: real, before: seq<Event>, e: Event, after: seq<Event>)
    requires AllSane(cfg, st, now) && Ordered(before + [e] + after) && now <= (before + [e] + after)[0].now
    requires Answers(cfg, st, before + [e] + after, false)[|before|] != Allowed(true)
    ensures var answers := Answers(cfg, st, before + [e] + after, false);
      answers[..|before|] + answers[|before| + 1..] == Answers(cfg, st, before + after, false)
    decreases |before|
  {
    hide Step, Available;
    var evs := before + [e] + after;
    SaneLater(cfg, st, now, evs[0].now);
    if before == [] {
      assert before + after == after && evs[1..] == after && evs[0] == e;
      IdleStep(cfg, st, st, EVERYBODY, e);
      SameAnswers(cfg, Step(cfg, st, e, false).0, st, e.now, after);
    } else {
      StepExact(cfg, st, evs[0], evs[0].op.client);
      assert (before + after)[1..] == before[1..] + after && evs[1..] == before[1..] + [e] + after;
      SkipOne(cfg, Step(cfg, st, evs[0], false).0, evs[0].now, before[1..], e, after);
    }
  }

  /** A refused request and a question about the delay leave no trace in any later answer. */
  lemma RefusalHasNoEffect(cfg: Config, before: seq<Event>, e: Event, after: seq<Event>)
    requires Ordered(before + [e] + after) && cfg.RefillsBeforeStale()
    requires Answers(cfg, EMPTY, before + [e] + after, true)[|before|] != Allowed(true)
    ensures var answers := Answers(cfg, EMPTY, before + [e] + after, true);
      answers[..|before|] + answers[|before| + 1..] == Answers(cfg, EMPTY, before + after, true)
  {
    var evs, rest := before + [e] + after, before + after;
    forall i, j | 0 <= i < j < |rest|
      ensures rest[i].now <= rest[j].now
    {
      assert rest[i] == evs[if i < |before| then i else i + 1];
      assert rest[j] == evs[if j < |before| then j else j + 1];
    }
    EvictionUnobservable(cfg, evs);
    EvictionUnobservable(cfg, rest);
    SkipOne(cfg, EMPTY, evs[0].now, before, e, after);
  }

  /** The calls of one client, and the answers to them. */
  function CallsOf(evs: seq<Event>, c: Client): seq<Event> {
    if evs == [] then []
    else (if evs[0].op.client == c then [evs[0]] else []) + CallsOf(evs[1..], c)
  }

  function AnswersTo(evs: seq<Event>, answers: seq<Answer>, c: Client): seq<Answer>
    requires |answers| == |evs|
  {
    if evs == [] then []
    else (if evs[0].op.client == c then [answers[0]] else []) + AnswersTo(evs[1..], answers[1..], c)
  }

  lemma {:induction false} AloneSame(cfg: Config, a: Limiter, b: Limiter, now: real, evs: seq<Event>, c: Client)
    requires AllSane(cfg, a, now) && AllSane(cfg, b, now) && SameTokens(cfg, a, b, iset{c}, now)
    requires Ordered(evs) && (evs != [] ==> now <= evs[0].now)
    ensures AnswersTo(evs, Answers(cfg, a, evs, false), c) == Answers(cfg, b, CallsOf(evs, c), false)
    decreases |evs|
  {
    hide Step, Available;
    if evs == [] {
    } else {
      var e, a1 := evs[0], Step(cfg, a, evs[0], false).0;
      SameTokensLater(cfg, a, b, iset{c}, now, e.now);
      AnswersToCons(cfg, a, evs, c);
      if e.op.client == c {
        SameStep(cfg, a, b, iset{c}, e);
        AloneSame(cfg, a1, Step(cfg, b, e, false).0, e.now, evs[1..], c);
        assert CallsOf(evs, c)[1..] == CallsOf(evs[1..], c);
      } else {
        IdleStep(cfg, a, b, iset{c}, e);
        AloneSame(cfg, a1, b, e.now, evs[1..], c);
        assert CallsOf(evs, c) == CallsOf(evs[1..], c);
        assert AnswersTo(evs, Answers(cfg, a, evs, false), c)
            == AnswersTo(evs[1..], Answers(cfg, a1, evs[1..], false), c);
      }
    }
  }

  lemma AnswersToCons(cfg: Config, st: Limiter, evs: seq<Event>, c: Client)
    requires evs != []
    ensures var (s1, a) := Step(cfg, st, evs[0], false);
      AnswersTo(evs, Answers(cfg, st, evs, false), c) ==
      (if evs[0].op.client == c then [a] else []) + AnswersTo(evs[1..], Answers(cfg, s1, evs[1..], false), c)
  {
    hide Step;
    assert Answers(cfg, st, evs, false)[1..] == Answers(cfg, Step(cfg, st, evs[0], false).0, evs[1..], false);
  }

  lemma {:induction false} CallsOfOrdered(evs: seq<Event>, c: Client)
    requires Ordered(evs)
    ensures Ordered(CallsOf(evs, c)) && forall e :: e in CallsOf(evs, c) ==> e in evs
  {
    if evs == [] {
    } else {
      CallsOfOrdered(evs[1..], c);
      assert forall e :: e in evs[1..] ==> evs[0].now <= e.now;
      assert forall i :: 0 <= i < |CallsOf(evs[1..], c)| ==> CallsOf(evs[1..], c)[i] in CallsOf(evs[1..], c);
    }
  }

  /** Every client gets the answers it would get if it were alone. */
  lemma ClientsIndependent(cfg: Config, evs: seq<Event>, c: Client)
    requires Ordered(evs) && cfg.RefillsBeforeStale()
    ensures AnswersTo(evs, Answers(cfg, EMPTY, evs, true), c) == Answers(cfg, EMPTY, CallsOf(evs, c), true)
  {
    CallsOfOrdered(evs, c);
    EvictionUnobservable(cfg, evs);
    EvictionUnobservable(cfg, CallsOf(evs, c));
    AloneSame(cfg, EMPTY, EMPTY, if evs == [] then 0.0 else evs[0].now, evs, c);
  }

  // ---- which clients are stored ---------------------------------------------------------------

  /**
    The access time of a client, if it is stored: of its last request, or of a question about the
    delay that found it unknown. Every request of any client deletes the stale ones.
  */
  function LastSeen(evs: seq<Event>, c: Client): Option<real> {
    if evs == [] then None
    else
      var e, seen := evs[|evs| - 1], LastSeen(evs[..|evs| - 1], c);
      SeenAfter(seen, e, c)
  }

  function SeenAfter(seen: Option<real>, e: Event, c: Client): Option<real> {
    if e.op == IsAllowed(c) || (e.op == RetryAfter(c) && seen == None) then Some(e.now)
    else if e.op.IsAllowed? && seen.Some? && e.now - seen.value > 600.0 then None
    else seen
  }

  function AccessOf(st: Limiter, c: Client): Option<real> {
    if c in st.access then Some(st.access[c]) else None
  }

  lemma StepSeen(cfg: Config, st: Limiter, e: Event, c: Client)
    requires c in st.buckets <==> c in st.access
    ensures var s1 := Step(cfg, st, e, true).0;
      && (c in s1.buckets <==> c in s1.access)
      && AccessOf(s1, c) == SeenAfter(AccessOf(st, c), e, c)
  {
    hide Refill, Delay, Spent;
  }

  lemma {:induction false} AfterSnoc(cfg: Config, st: Limiter, evs: seq<Event>, e: Event, evict: bool)
    ensures After(cfg, st, evs + [e], evict) == Step(cfg, After(cfg, st, evs, evict), e, evict).0
    decreases |evs|
  {
    if evs == [] {
      assert [e][1..] == [];
    } else {
      assert (evs + [e])[1..] == evs[1..] + [e];
      AfterSnoc(cfg, Step(cfg, st, evs[0], evict).0, evs[1..], e, evict);
    }
  }

  lemma {:induction false} StoredIffSeen(cfg: Config, evs: seq<Event>, c: Client)
    ensures var st := After(cfg, EMPTY, evs, true);
      && (c in st.buckets <==> c in st.access)
      && LastSeen(evs, c) == AccessOf(st, c)
  {
    hide Step;
    if evs == [] {
    } else {
      var front, e := evs[..|evs| - 1], evs[|evs| - 1];
      StoredIffSeen(cfg, front, c);
      assert evs == front + [e];
      AfterSnoc(cfg, EMPTY, front, e, true);
      StepSeen(cfg, After(cfg, EMPTY, front, true), e, c);
    }
  }

  // ---- when the condition fails ----------------------------------------------------------------

  function After(cfg: Config, st: Limiter, evs: seq<Event>, evict: bool): Limiter
    decreases |evs|
  {
    if evs == [] then st else After(cfg, Step(cfg, st, evs[0], evict).0, evs[1..], evict)
  }

  function Calls(n: nat, c: Client, t: real): (evs: seq<Event>)
    ensures |evs| == n && forall i :: 0 <= i < n ==> evs[i] == Event(IsAllowed(c), t)
  {
    if n == 0 then [] else [Event(IsAllowed(c), t)] + Calls(n - 1, c, t)
  }

  /** The tokens that the next call of `c` at time `t` finds. */
  function Found(cfg: Config, st: Limiter, c: Client, t: real): real {
    Refill(cfg, GetOrCreate(cfg, Cleanup(st, t), c, t).buckets[c], t).tokens
  }

  lemma ServedOnce(cfg: Config, st: Limiter, c: Client, t: real)
    requires 1.0 <= Found(cfg, st, c, t) <= cfg.Capacity()
    ensures var (s1, a) := Step(cfg, st, Event(IsAllowed(c), t), true);
      && a == Allowed(true)
      && c in s1.buckets && c in s1.access && s1.access[c] == t
      && Found(cfg, s1, c, t) == Found(cfg, st, c, t) - 1.0
  {
    var s1 := Step(cfg, st, Event(IsAllowed(c), t), true).0;
    var b := s1.buckets[c];
    assert c in Cleanup(s1, t).buckets;
    RefillNow(cfg, b);
  }

  /** As many calls in a row as there are tokens are all allowed. */
  lemma {:induction false} ServedInARow(cfg: Config, st: Limiter, n: nat, c: Client, t: real)
    requires n as real <= Found(cfg, st, c, t) <= cfg.Capacity()
    ensures forall a :: a in Answers(cfg, st, Calls(n, c, t), true) ==> a == Allowed(true)
    ensures n > 0 ==> var s1 := After(cfg, st, Calls(n, c, t), true);
              c in s1.buckets && c in s1.access && s1.access[c] == t
    decreases n
  {
    if n == 0 {
    } else {
      var e := Event(IsAllowed(c), t);
      ServedOnce(cfg, st, c, t);
      assert Calls(n, c, t)[1..] == Calls(n - 1, c, t);
      ServedInARow(cfg, Step(cfg, st, e, true).0, n - 1, c, t);
    }
  }

  lemma {:induction false} SpentInARow(cfg: Config, st: Limiter, n: nat, c: Client, t: real)
    requires n as real <= Found(cfg, st, c, t) <= cfg.Capacity()
    ensures Found(cfg, After(cfg, st, Calls(n, c, t), true), c, t) == Found(cfg, st, c, t) - n as real
    decreases n
  {
    if n == 0 {
    } else {
      ServedOnce(cfg, st, c, t);
      assert Calls(n, c, t)[1..] == Calls(n - 1, c, t);
      SpentInARow(cfg, Step(cfg, st, Event(IsAllowed(c), t), true).0, n - 1, c, t);
    }
  }

  lemma {:induction false} AnswersConcat(cfg: Config, st: Limiter, a: seq<Event>, b: seq<Event>, evict: bool)
    ensures Answers(cfg, st, a + b, evict) ==
              Answers(cfg, st, a, evict) + Answers(cfg, After(cfg, st, a, evict), b, evict)
    decreases |a|
  {
    if a == [] {
      assert a + b == b;
    } else {
      assert (a + b)[0] == a[0] && (a + b)[1..] == a[1..] + b;
      AnswersConcat(cfg, Step(cfg, st, a[0], evict).0, a[1..], b, evict);
    }
  }

  lemma {:induction false} AllHits(evs: seq<Event>, answers: seq<Answer>, c: Client, lo: real, hi: real)
    requires |answers| == |evs|
    requires forall i :: 0 <= i < |evs| ==> Hit(evs[i], answers[i], c, lo, hi)
    ensures AllowedIn(evs, answers, c, lo, hi) == |evs|
  {
    if evs == [] {
    } else {
      AllHits(evs[1..], answers[1..], c, lo, hi);
    }
  }

  /** Just after the bucket counts as stale, and before one more token has accrued. */
  function JustStale(cfg: Config): real {
    STALE_TTL + 1.0 / (cfg.requestsPerMinute + 1) as real
  }

  /** Empty a bucket, let it become stale, and call once more often than it can have refilled. */
  function ExposingRun(cfg: Config, c: Client): seq<Event> {
    Calls(cfg.burstSize, c, 0.0) + Calls(10 * cfg.requestsPerMinute + 1, c, JustStale(cfg))
  }

  lemma JustStaleFacts(cfg: Config)
    ensures JustStale(cfg) > STALE_TTL
    ensures WindowLimit(cfg, JustStale(cfg)) < (cfg.burstSize + 10 * cfg.requestsPerMinute + 1) as real
  {
    var n := (cfg.requestsPerMinute + 1) as real;
    var extra := 1.0 / n;
    assert extra * n == 1.0 && extra > 0.0;
    assert extra * cfg.requestsPerMinute as real == extra * n - extra;
    assert JustStale(cfg) * cfg.Rate() == (STALE_TTL + extra) * (cfg.requestsPerMinute as real / 60.0);
  }

  lemma ExposingRunAllAllowed(cfg: Config, c: Client)
    requires !cfg.RefillsBeforeStale()
    ensures var evs := ExposingRun(cfg, c);
      && Ordered(evs)
      && AllowedIn(evs, Answers(cfg, EMPTY, evs, true), c, 0.0, JustStale(cfg)) == |evs|
  {
    var m := 10 * cfg.requestsPerMinute + 1;
    var t := JustStale(cfg);
    JustStaleFacts(cfg);
    var first, second := Calls(cfg.burstSize, c, 0.0), Calls(m, c, t);
    RefillNow(cfg, Bucket(cfg.Capacity(), 0.0));
    ServedInARow(cfg, EMPTY, cfg.burstSize, c, 0.0);
    var s1 := After(cfg, EMPTY, first, true);
    assert c !in Cleanup(s1, t).buckets;
    RefillNow(cfg, Bucket(cfg.Capacity(), t));
    ServedInARow(cfg, s1, m, c, t);
    AnswersConcat(cfg, EMPTY, first, second, true);
    BothHit(Answers(cfg, EMPTY, first, true), Answers(cfg, s1, second, true), first, second, c, t);
    AllHits(first + second, Answers(cfg, EMPTY, first + second, true), c, 0.0, t);
  }

  lemma BothHit(a: seq<Answer>, b: seq<Answer>, first: seq<Event>, second: seq<Event>, c: Client, t: real)
    requires |a| == |first| && |b| == |second| && t >= 0.0
    requires forall x :: x in a || x in b ==> x == Allowed(true)
    requires forall i :: 0 <= i < |first| ==> first[i] == Event(IsAllowed(c), 0.0)
    requires forall i :: 0 <= i < |second| ==> second[i] == Event(IsAllowed(c), t)
    ensures forall i :: 0 <= i < |first + second| ==> Hit((first + second)[i], (a + b)[i], c, 0.0, t)
  {
    forall i | 0 <= i < |first + second|
      ensures Hit((first + second)[i], (a + b)[i], c, 0.0, t)
    {
      if i < |first| {
        assert (a + b)[i] == a[i] && a[i] in a;
      } else {
        assert (a + b)[i] == b[i - |a|] && b[i - |a|] in b;
      }
    }
  }

  /** Exactly when eviction cannot be observed in any run. */
  lemma EvictionUnobservableIff(cfg: Config)
    ensures (forall evs :: Ordered(evs) ==> Answers(cfg, EMPTY, evs, true) == Answers(cfg, EMPTY, evs, false))
            <==> cfg.RefillsBeforeStale()
  {
    if cfg.RefillsBeforeStale() {
      forall evs | Ordered(evs)
        ensures Answers(cfg, EMPTY, evs, true) == Answers(cfg, EMPTY, evs, false)
      {
        EvictionUnobservable(cfg, evs);
      }
    } else {
      var evs := ExposingRun(cfg, "c");
      ExposingRunAllAllowed(cfg, "c");
      JustStaleFacts(cfg);
      PlainWindowBound(cfg, evs, "c", 0.0, JustStale(cfg));
      assert Answers(cfg, EMPTY, evs, true) != Answers(cfg, EMPTY, evs, false);
    }
  }

  /** The window bound holds for all runs, clients and intervals. */
  ghost predicate KeepsWindowBound(cfg: Config) {
    forall evs, c, lo, hi :: Ordered(evs) && lo <= hi ==>
      AllowedIn(evs, Answers(cfg, EMPTY, evs, true), c, lo, hi) as real <= WindowLimit(cfg, hi - lo)
  }

  /** Exactly when the window bound holds: on the other configurations the exposing run is served beyond it. */
  lemma WindowBoundIff(cfg: Config)
    ensures KeepsWindowBound(cfg) <==> cfg.RefillsBeforeStale()
  {
    if cfg.RefillsBeforeStale() {
      forall evs, c, lo, hi | Ordered(evs) && lo <= hi
        ensures AllowedIn(evs, Answers(cfg, EMPTY, evs, true), c, lo, hi) as real <= WindowLimit(cfg, hi - lo)
      {
        WindowBound(cfg, evs, c, lo, hi);
      }
    } else {
      var evs := ExposingRun(cfg, "c");
      ExposingRunAllAllowed(cfg, "c");
      JustStaleFacts(cfg);
      assert AllowedIn(evs, Answers(cfg, EMPTY, evs, true), "c", 0.0, JustStale(cfg)) as real
             > WindowLimit(cfg, JustStale(cfg) - 0.0);
    }
  }

  // ---- the advice of get_retry_after, over whole runs ----------------------------------------------

  /** Every bucket of the limiter is live; nothing else is asked of it. */
  ghost predicate Live(cfg: Config, st: Limiter, now: real) {
    Simulates(cfg, st, st, now)
  }

  lemma StepKeepsLive(cfg: Config, st: Limiter, now: real, e: Event)
    requires Live(cfg, st, now) && now <= e.now
    ensures Live(cfg, Step(cfg, st, e, true).0, e.now)
  {
    LaterSimulates(cfg, st, st, now, e.now);
    if e.op.IsAllowed? {
      var s1 := Cleanup(st, e.now);
      ServeSimulates(cfg, s1, s1, e.op.client, e.now);
    } else {
      InspectSimulates(cfg, st, st, e.op.client, e.now);
    }
  }

  lemma {:induction false} RunKeepsLive(cfg: Config, st: Limiter, now: real, evs: seq<Event>, u: real)
    requires Live(cfg, st, now) && now <= u && Ordered(evs)
    requires forall e :: e in evs ==> now <= e.now <= u
    ensures Live(cfg, After(cfg, st, evs, true), u)
    decreases |evs|
  {
    if evs == [] {
      LaterSimulates(cfg, st, st, now, u);
    } else {
      StepKeepsLive(cfg, st, now, evs[0]);
      RunKeepsLive(cfg, Step(cfg, st, evs[0], true).0, evs[0].now, evs[1..], u);
    }
  }

  /**
    The bucket of `c` at `now`, if `b` was its live bucket, last accessed at `access`, and `c` has
    only been inspected since: still `b` refilled, or deleted and perhaps created anew after `b`
    would have held a token again.
  */
  ghost predicate Follows(cfg: Config, st: Limiter, c: Client, b: Bucket, access: real, now: real) {
    && b.last <= now
    && if c in st.buckets then
         && c in st.access && b.last <= st.buckets[c].last <= now
         && (|| (st.access[c] == access && st.buckets[c] == Refill(cfg, b, st.buckets[c].last))
             || (st.buckets[c].tokens == cfg.Capacity() && Refill(cfg, b, now).tokens >= 1.0))
       else Refill(cfg, b, now).tokens >= 1.0
  }

  /** A bucket that counts as stale has accrued a token since it was last accessed. */
  lemma StaleHoldsToken(cfg: Config, b: Bucket, access: real, u: real)
    requires LiveOk(cfg, b, access, b.last) && b.last <= u && u - access > STALE_TTL
    requires cfg.requestsPerMinute > 0 && cfg.burstSize >= 1
    ensures Refill(cfg, b, u).tokens >= 1.0
  {
    Accrual(cfg, access, b.last, u);
    Accrual(cfg, access, access + STALE_TTL, u);
    AccruedWhileStale(cfg, access);
    assert Accrued(cfg, access, b.last) + Accrued(cfg, b.last, u) >= 10.0;
  }

  lemma AccruedWhileStale(cfg: Config, access: real)
    ensures Accrued(cfg, access, access + STALE_TTL) == 10.0 * cfg.requestsPerMinute as real
  {
    var rate := cfg.Rate();
    assert rate * 60.0 == cfg.requestsPerMinute as real;
    assert access + STALE_TTL - access == 600.0;
    assert Accrued(cfg, access, access + STALE_TTL) == 600.0 * rate;
  }

  lemma CleanupFollows(cfg: Config, st: Limiter, c: Client, b: Bucket, access: real, now: real, u: real)
    requires Follows(cfg, st, c, b, access, now) && LiveOk(cfg, b, access, b.last) && now <= u
    requires cfg.requestsPerMinute > 0 && cfg.burstSize >= 1
    ensures Follows(cfg, st, c, b, access, u) && Follows(cfg, Cleanup(st, u), c, b, access, u)
  {
    RefillTwice(cfg, b, now, u);
    RefillSane(cfg, Refill(cfg, b, now), u);
    if c in st.buckets && Stale(st.access, c, u) && st.access[c] == access {
      StaleHoldsToken(cfg, b, access, u);
    }
  }

  lemma StepFollows(cfg: Config, st: Limiter, c: Client, b: Bucket, access: real, now: real, e: Event)
    requires Follows(cfg, st, c, b, access, now) && LiveOk(cfg, b, access, b.last) && now <= e.now
    requires cfg.requestsPerMinute > 0 && cfg.burstSize >= 1 && e.op != IsAllowed(c)
    ensures Follows(cfg, Step(cfg, st, e, true).0, c, b, access, e.now)
  {
    CleanupFollows(cfg, st, c, b, access, now, e.now);
    if e.op == RetryAfter(c) {
      if c in st.buckets {
        RefilledAgain(cfg, st, c, b, access, e.now);
      } else {
        RefillNow(cfg, Bucket(cfg.Capacity(), e.now));
      }
    }
  }

  /** What a look at time `u` finds. */
  lemma RefilledAgain(cfg: Config, st: Limiter, c: Client, b: Bucket, access: real, u: real)
    requires Follows(cfg, st, c, b, access, u) && Sane(cfg, b) && c in st.buckets
    ensures var r := Refill(cfg, st.buckets[c], u);
      r == Refill(cfg, b, u) || (r.tokens == cfg.Capacity() && Refill(cfg, b, u).tokens >= 1.0)
    ensures st.access[c] == access && st.buckets[c] == Refill(cfg, b, st.buckets[c].last) ==>
              Refill(cfg, st.buckets[c], u) == Refill(cfg, b, u)
    ensures st.buckets[c].tokens == cfg.Capacity() ==> Refill(cfg, st.buckets[c], u).tokens == cfg.Capacity()
  {
    RefillTwice(cfg, b, st.buckets[c].last, u);
    Accrual(cfg, st.buckets[c].last, u, u);
  }

  lemma {:induction false} RunFollows(cfg: Config, st: Limiter, c: Client, b: Bucket, access: real, now: real,
                                      evs: seq<Event>, u: real)
    requires Follows(cfg, st, c, b, access, now) && LiveOk(cfg, b, access, b.last) && now <= u
    requires cfg.requestsPerMinute > 0 && cfg.burstSize >= 1
    requires Ordered(evs) && forall e :: e in evs ==> now <= e.now <= u && e.op != IsAllowed(c)
    ensures Follows(cfg, After(cfg, st, evs, true), c, b, access, u)
    decreases |evs|
  {
    if evs == [] {
      CleanupFollows(cfg, st, c, b, access, now, u);
    } else {
      StepFollows(cfg, st, c, b, access, now, evs[0]);
      RunFollows(cfg, Step(cfg, st, evs[0], true).0, c, b, access, evs[0].now, evs[1..], u);
    }
  }

  /** A request at `u` is served exactly if `b`, left alone, would hold a token by then. */
  lemma ServedIff(cfg: Config, st: Limiter, c: Client, b: Bucket, access: real, u: real)
    requires Follows(cfg, st, c, b, access, u) && LiveOk(cfg, b, access, b.last)
    requires cfg.requestsPerMinute > 0 && cfg.burstSize >= 1
    ensures Step(cfg, st, Event(IsAllowed(c), u), true).1 == Allowed(Refill(cfg, b, u).tokens >= 1.0)
  {
    CleanupFollows(cfg, st, c, b, access, u, u);
    var s1 := Cleanup(st, u);
    if c in s1.buckets {
      RefilledAgain(cfg, s1, c, b, access, u);
    } else {
      RefillNow(cfg, Bucket(cfg.Capacity(), u));
    }
  }

  /** In this run the answer of `get_retry_after` at `t` is a delay that decides the request at `u`. */
  predicate AdviceKept(cfg: Config, before: seq<Event>, c: Client, t: real, between: seq<Event>, u: real) {
    var evs := before + [Event(RetryAfter(c), t)] + between + [Event(IsAllowed(c), u)];
    var answers := Answers(cfg, EMPTY, evs, true);
    answers[|before|].Wait? && answers[|evs| - 1] == Allowed(u >= t + answers[|before|].seconds)
  }

  lemma OrderedAround(before: seq<Event>, ask: Event, between: seq<Event>, request: Event)
    requires Ordered(before + [ask] + between + [request])
    ensures Ordered(before) && Ordered(between) && ask.now <= request.now
    ensures forall e :: e in before ==> before[0].now <= e.now <= ask.now
    ensures forall e :: e in between ==> ask.now <= e.now <= request.now
  {
    var evs := before + [ask] + between + [request];
    assert evs[|before|] == ask && evs[|evs| - 1] == request;
    forall i | 0 <= i < |before|
      ensures before[i].now <= ask.now
    {
      assert evs[i] == before[i];
    }
    forall i | 0 <= i < |between|
      ensures ask.now <= between[i].now <= request.now
    {
      assert evs[|before| + 1 + i] == between[i];
    }
    assert Ordered(before) by {
      assert forall i :: 0 <= i < |before| ==> evs[i] == before[i];
    }
    assert Ordered(between) by {
      assert forall i :: 0 <= i < |between| ==> evs[|before| + 1 + i] == between[i];
    }
  }

  /**
    The advice is exact over whole runs: if the client is told at `t` to wait `d` seconds and makes
    no request until `u`, while others make any calls and cause any deletions, its request at `u`
    is allowed if and only if at least `d` seconds have passed.
  */
  lemma RetryAdviceExact(cfg: Config, before: seq<Event>, c: Client, t: real, between: seq<Event>, u: real)
    requires cfg.requestsPerMinute > 0 && cfg.burstSize >= 1
    requires Ordered(before + [Event(RetryAfter(c), t)] + between + [Event(IsAllowed(c), u)])
    requires forall e :: e in between ==> e.op != IsAllowed(c)
    ensures AdviceKept(cfg, before, c, t, between, u)
  {
    var ask, request := Event(RetryAfter(c), t), Event(IsAllowed(c), u);
    OrderedAround(before, ask, between, request);
    var st := After(cfg, EMPTY, before, true);
    var start := if before == [] then t else before[0].now;
    RunKeepsLive(cfg, EMPTY, start, before, t);
    var s1 := Step(cfg, st, ask, true).0;
    InspectedBucket(cfg, st, c, t);
    var b, access := s1.buckets[c], s1.access[c];
    DelayDecides(cfg, b, u);
    RunFollows(cfg, s1, c, b, access, t, between, u);
    ServedIff(cfg, After(cfg, s1, between, true), c, b, access, u);
    AnswersAround(cfg, before, ask, between, request);
  }

  /** What `get_retry_after` leaves behind on a live limiter. */
  lemma InspectedBucket(cfg: Config, st: Limiter, c: Client, t: real)
    requires Live(cfg, st, t)
    ensures var (s1, a) := Step(cfg, st, Event(RetryAfter(c), t), true);
      && c in s1.buckets && c in s1.access && s1.buckets[c].last == t
      && LiveOk(cfg, s1.buckets[c], s1.access[c], t) && a == Delay(cfg, s1.buckets[c])
      && Follows(cfg, s1, c, s1.buckets[c], s1.access[c], t)
  {
    InspectSimulates(cfg, st, st, c, t);
    RefillNow(cfg, Step(cfg, st, Event(RetryAfter(c), t), true).0.buckets[c]);
  }

  lemma AnswersAround(cfg: Config, before: seq<Event>, ask: Event, between: seq<Event>, request: Event)
    ensures var answers := Answers(cfg, EMPTY, before + [ask] + between + [request], true);
      var st := After(cfg, EMPTY, before, true);
      var s1 := Step(cfg, st, ask, true).0;
      && answers[|before|] == Step(cfg, st, ask, true).1
      && answers[|answers| - 1] == Step(cfg, After(cfg, s1, between, true), request, true).1
  {
    var st := After(cfg, EMPTY, before, true);
    var rest := [ask] + (between + [request]);
    assert before + [ask] + between + [request] == before + rest;
    AnswersConcat(cfg, EMPTY, before, rest, true);
    assert rest[1..] == between + [request];
    AnswersConcat(cfg, Step(cfg, st, ask, true).0, between, [request], true);
  }

  /** The advice is exact in every run from the empty limiter. */
  ghost predicate AdviceExact(cfg: Config) {
    forall before, c, t, between, u ::
      (&& Ordered(before + [Event(RetryAfter(c), t)] + between + [Event(IsAllowed(c), u)])
       && forall e :: e in between ==> e.op != IsAllowed(c))
      ==> AdviceKept(cfg, before, c, t, between, u)
  }

  /** Exactly when it is: with a positive rate and room for a token; eviction plays no part. */
  lemma RetryAdviceIff(cfg: Config)
    ensures AdviceExact(cfg) <==> cfg.requestsPerMinute > 0 && cfg.burstSize >= 1
  {
    if cfg.requestsPerMinute > 0 && cfg.burstSize >= 1 {
      forall before, c, t, between, u |
        Ordered(before + [Event(RetryAfter(c), t)] + between + [Event(IsAllowed(c), u)])
        && forall e :: e in between ==> e.op != IsAllowed(c)
        ensures AdviceKept(cfg, before, c, t, between, u)
      {
        RetryAdviceExact(cfg, before, c, t, between, u);
      }
    } else {
      var before := Calls(cfg.burstSize, "c", 0.0);
      var u := if cfg.requestsPerMinute > 0 then 1.0 / cfg.Rate() else 0.0;
      WrongAdvice(cfg, "c", u);
      assert !AdviceKept(cfg, before, "c", 0.0, [], u);
    }
  }

  /** The run that shows it: spend the whole burst, ask, and wait as told. */
  lemma WrongAdvice(cfg: Config, c: Client, u: real)
    requires cfg.requestsPerMinute == 0 || cfg.burstSize == 0
    requires u == if cfg.requestsPerMinute > 0 then 1.0 / cfg.Rate() else 0.0
    ensures Ordered(Calls(cfg.burstSize, c, 0.0) + [Event(RetryAfter(c), 0.0)] + [] + [Event(IsAllowed(c), u)])
    ensures !AdviceKept(cfg, Calls(cfg.burstSize, c, 0.0), c, 0.0, [], u)
  {
    var before, ask, request := Calls(cfg.burstSize, c, 0.0), Event(RetryAfter(c), 0.0), Event(IsAllowed(c), u);
    AnswersAround(cfg, before, ask, [], request);
    if cfg.burstSize == 0 {
      NoRoomNoService(cfg, Step(cfg, EMPTY, ask, true).0, c, u);
    } else {
      NoAdvice(cfg, c);
    }
  }

  lemma NoRoomNoService(cfg: Config, st: Limiter, c: Client, u: real)
    requires cfg.burstSize == 0
    ensures Step(cfg, st, Event(IsAllowed(c), u), true).1 == Allowed(false)
  {
    ZeroCapacityNeverServes(cfg, GetOrCreate(cfg, Cleanup(st, u), c, u).buckets[c], u);
  }

  lemma NoAdvice(cfg: Config, c: Client)
    requires cfg.requestsPerMinute == 0 && cfg.burstSize >= 1
    ensures var st := After(cfg, EMPTY, Calls(cfg.burstSize, c, 0.0), true);
      Step(cfg, st, Event(RetryAfter(c), 0.0), true).1 == DivisionByZero
  {
    RefillNow(cfg, Bucket(cfg.Capacity(), 0.0));
    SpentInARow(cfg, EMPTY, cfg.burstSize, c, 0.0);
    ServedInARow(cfg, EMPTY, cfg.burstSize, c, 0.0);
  }

  // ---- the classes -------------------------------------------------------------------------------

  class TokenBucket {
    const capacity: real
    const refillRate: real
    var tokens: real
    var lastRefill: real

    constructor (cfg: Config, now: real)
      ensures For(cfg) && Now() == Bucket(cfg.Capacity(), now)
    {
      capacity := cfg.Capacity();
      refillRate := cfg.Rate();
      tokens := cfg.Capacity();
      lastRefill := now;
    }

    predicate For(cfg: Config) {
      capacity == cfg.Capacity() && refillRate == cfg.Rate()
    }

    function Now(): Bucket
      reads this
    {
      Bucket(tokens, lastRefill)
    }

    method DoRefill(ghost cfg: Config, now: real)
      requires For(cfg)
      modifies this
      ensures Now() == Refill(cfg, old(Now()), now)
    {
      var elapsed := now - lastRefill;
      var tokensToAdd := elapsed * refillRate;
      tokens := Min(capacity, tokens + tokensToAdd);
      lastRefill := now;
    }

    method TryConsume(ghost cfg: Config, amount: real, now: real) returns (ok: bool)
      requires For(cfg)
      modifies this
      ensures var b := Refill(cfg, old(Now()), now);
        ok == (b.tokens >= amount) && Now() == if ok then b.(tokens := b.tokens - amount) else b
    {
      DoRefill(cfg, now);
      if tokens >= amount {
        tokens := tokens - amount;
        return true;
      }
      return false;
    }

    method GetRetryAfter(ghost cfg: Config, now: real) returns (a: Answer)
      requires For(cfg)
      modifies this
      ensures Now() == Refill(cfg, old(Now()), now) && a == Delay(cfg, Now())
    {
      DoRefill(cfg, now);
      if tokens >= 1.0 {
        return Wait(0.0);
      }
      if refillRate == 0.0 {
        return DivisionByZero;
      }
      return Wait((1.0 - tokens) / refillRate);
    }
  }

  class RateLimiter {
    const config: Config
    var buckets: map<Client, TokenBucket>
    var accessTimes: map<Client, real>

    ghost predicate Valid()
      reads this
    {
      && buckets.Keys == accessTimes.Keys
      && (forall c :: c in buckets ==> buckets[c].For(config))
      && (forall c, d :: c in buckets && d in buckets && c != d ==> buckets[c] != buckets[d])
    }

    /** The limiter as a value. */
    ghost function Now(): Limiter
      reads this, buckets.Values
    {
      Limiter(map c | c in buckets :: buckets[c].Now(), accessTimes)
    }

    constructor (config: Config)
      ensures Valid() && this.config == config && Now() == EMPTY
    {
      this.config := config;
      buckets, accessTimes := map[], map[];
    }

    method CleanupStaleBuckets(now: real)
      requires Valid()
      modifies this
      ensures Valid() && Now() == Cleanup(old(Now()), now)
      ensures forall c :: c in buckets ==> c in old(buckets) && buckets[c] == old(buckets[c])
    {
      var stale := set c | c in accessTimes && Stale(accessTimes, c, now);
      DeleteAll(stale);
    }

    /** The deletion loop of the cleanup. */
    method DeleteAll(stale: set<Client>)
      requires Valid() && stale <= buckets.Keys
      modifies this
      ensures buckets == old(buckets) - stale && accessTimes == old(accessTimes) - stale
    {
      var left := stale;
      while left != {}
        invariant left <= stale
        invariant buckets == old(buckets) - (stale - left) && accessTimes == old(accessTimes) - (stale - left)
        decreases left
      {
        var c :| c in left;
        buckets := buckets - {c};
        accessTimes := accessTimes - {c};
        left := left - {c};
      }
    }

    method GetOrCreateBucket(c: Client, now: real) returns (b: TokenBucket)
      requires Valid()
      modifies this
      ensures Valid() && c in buckets && b == buckets[c]
      ensures c !in old(buckets) ==> fresh(b)
      ensures forall d :: d in buckets ==> if d in old(buckets) then buckets[d] == old(buckets[d]) else d == c
      ensures Now() == GetOrCreate(config, old(Now()), c, now)
    {
      if c in buckets {
        return buckets[c];
      }
      ghost var before := Now();
      b := new TokenBucket(config, now);
      assert Now() == before;
      AddBucket(c, b, now);
    }

    method AddBucket(c: Client, b: TokenBucket, now: real)
      requires Valid() && c !in buckets && b.For(config) && forall d :: d in buckets ==> buckets[d] != b
      modifies this
      ensures Valid() && buckets == old(buckets)[c := b]
      ensures Now() == Limiter(old(Now()).buckets[c := b.Now()], old(Now()).access[c := now])
    {
      buckets := buckets[c := b];
      accessTimes := accessTimes[c := now];
      assert Now().buckets == old(Now()).buckets[c := b.Now()];
    }

    /** `try_consume` on the bucket of `c`, seen from the whole limiter. */
    method ConsumeOne(c: Client, now: real) returns (ok: bool)
      requires Valid() && c in buckets
      modifies buckets[c]
      ensures Valid()
      ensures var b := Refill(config, old(buckets[c].Now()), now);
        ok == (b.tokens >= 1.0) && buckets[c].Now() == Spent(b)
      ensures Now() == Limiter(old(Now()).buckets[c := buckets[c].Now()], old(Now()).access)
    {
      ok := buckets[c].TryConsume(config, 1.0, now);
      assert forall d :: d in buckets && d != c ==> buckets[d].Now() == old(buckets[d].Now());
      assert Now().buckets == old(Now()).buckets[c := buckets[c].Now()];
    }

    /** `is_allowed` after the cleanup. */
    method ServeClient(c: Client, now: real) returns (ok: bool)
      requires Valid()
      modifies this, buckets.Values
      ensures Valid()
      ensures c !in old(buckets) ==> c in buckets && fresh(buckets[c])
      ensures forall d :: d in buckets ==> if d in old(buckets) then buckets[d] == old(buckets[d]) else d == c
      ensures (Now(), Allowed(ok)) == Serve(config, old(Now()), c, now)
    {
      var bucket := GetOrCreateBucket(c, now);
      ghost var before := Now();
      accessTimes := accessTimes[c := now];
      assert Now() == Limiter(before.buckets, before.access[c := now]);
      assert bucket.Now() == before.buckets[c];
      ok := ConsumeOne(c, now);
    }

    method IsAllowed(c: Client, now: real) returns (ok: bool)
      requires Valid()
      modifies this, buckets.Values
      ensures Valid() && fresh(buckets.Values - old(buckets.Values))
      ensures (Now(), Allowed(ok)) == Step(config, old(Now()), Event(Op.IsAllowed(c), now), true)
    {
      CleanupStaleBuckets(now);
      ok := ServeClient(c, now);
    }

    method GetRetryAfter(c: Client, now: real) returns (a: Answer)
      requires Valid()
      modifies this, buckets.Values
      ensures Valid() && fresh(buckets.Values - old(buckets.Values))
      ensures (Now(), a) == Step(config, old(Now()), Event(RetryAfter(c), now), true)
    {
      var bucket := GetOrCreateBucket(c, now);
      a := LookAt(c, now);
    }

    /** `get_retry_after` on the bucket of `c`, seen from the whole limiter. */
    method LookAt(c: Client, now: real) returns (a: Answer)
      requires Valid() && c in buckets
      modifies buckets[c]
      ensures Valid()
      ensures var b := Refill(config, old(buckets[c].Now()), now);
        buckets[c].Now() == b && a == Delay(config, b)
      ensures Now() == Limiter(old(Now()).buckets[c := buckets[c].Now()], old(Now()).access)
    {
      a := buckets[c].GetRetryAfter(config, now);
      assert forall d :: d in buckets && d != c ==> buckets[d].Now() == old(buckets[d].Now());
      assert Now().buckets == old(Now()).buckets[c := buckets[c].Now()];
    }
  }
}
