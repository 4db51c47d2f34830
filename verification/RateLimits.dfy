/**
 Fixed-window request quotas: the window a request falls into, the conditional counter, and what
 the two together allow over any trace of requests.
 */
module RateLimits {
  import opened Common

  datatype PolicyRecord = PolicyRecord(name: string, requests: nat, windowSeconds: nat)

  /** Budgets are checked to be positive when a policy is made. */
  type RatePolicy = p: PolicyRecord | p.requests >= 1 && p.windowSeconds >= 1 witness PolicyRecord("", 1, 1)

  /** The counter key; the subject stands for its digest. */
  datatype CounterKey = CounterKey(scope: string, policy: string, windowSeconds: nat, window: int, subject: seq<string>)

  datatype RateError = RateLimited(retryAfter: int) | RateStoreUnavailable | InvalidAdmission

  type Counters = map<CounterKey, nat>

  function CountOf(c: Counters, key: CounterKey): nat {
    if key in c then c[key] else 0
  }

  // ---------------------------------------------------------------- windows

  function WindowOf(now: real, windowSeconds: nat): int
    requires windowSeconds >= 1
  {
    (now / (windowSeconds as real)).Floor
  }

  function WindowEnd(now: real, windowSeconds: nat): int
    requires windowSeconds >= 1
  {
    (WindowOf(now, windowSeconds) + 1) * windowSeconds
  }

  function Ceiling(x: real): int {
    if x == x.Floor as real then x.Floor else x.Floor + 1
  }

  function RetryAfter(now: real, windowSeconds: nat): int
    requires windowSeconds >= 1
  {
    Max(1, Ceiling(WindowEnd(now, windowSeconds) as real - now))
  }

  lemma QuotientBounds(now: real, w: real, q: int)
    requires w > 0.0 && q == (now / w).Floor
    ensures q as real * w <= now < (q as real + 1.0) * w
  {
    assert now / w * w == now;
    ScaleFloor(now, now / w, q as real, w);
    ScaleCeiling(now, now / w, q as real + 1.0, w);
  }

  lemma ScaleFloor(y: real, x: real, q: real, w: real)
    requires q <= x && w > 0.0 && x * w == y
    ensures q * w <= y
  {
    if q < x {
      ScaleUp(q, x, w);
    }
  }

  lemma ScaleCeiling(y: real, x: real, q: real, w: real)
    requires x < q && w > 0.0 && x * w == y
    ensures y < q * w
  {
    ScaleUp(x, q, w);
  }

  lemma ScaleUp(x: real, y: real, w: real)
    requires x < y && w > 0.0
    ensures x * w < y * w
  {
  }

  lemma WindowContains(now: real, windowSeconds: nat)
    requires windowSeconds >= 1
    ensures (WindowOf(now, windowSeconds) * windowSeconds) as real <= now < WindowEnd(now, windowSeconds) as real
    ensures WindowEnd(now, windowSeconds) == WindowOf(now, windowSeconds) * windowSeconds + windowSeconds
  {
    var q, w := WindowOf(now, windowSeconds), windowSeconds as real;
    QuotientBounds(now, w, q);
    MultiplyCasts(q, windowSeconds);
    MultiplyCasts(q + 1, windowSeconds);
  }

  lemma MultiplyCasts(q: int, w: nat)
    ensures (q * w) as real == q as real * w as real
  {
  }

  /** The window of a time is the only one whose bounds contain it. */
  lemma WindowIsUnique(now: real, windowSeconds: nat, q: int)
    requires windowSeconds >= 1
    requires (q * windowSeconds) as real <= now < ((q + 1) * windowSeconds) as real
    ensures WindowOf(now, windowSeconds) == q
  {
    WindowContains(now, windowSeconds);
    var p := WindowOf(now, windowSeconds);
    assert p * windowSeconds < (q + 1) * windowSeconds && q * windowSeconds < (p + 1) * windowSeconds;
    OrderOfProducts(p, q + 1, windowSeconds);
    OrderOfProducts(q, p + 1, windowSeconds);
  }

  lemma OrderOfProducts(p: int, q: int, w: nat)
    requires p * w < q * w
    ensures p < q
  {
    if q <= p {
      ProductsGrow(q, p, w);
      assert false;
    }
  }

  lemma ProductsGrow(p: int, q: int, w: nat)
    requires p <= q
    ensures p * w <= q * w
  {
  }

  /** A denied caller that waits its retry-after always lands in a later window. */
  lemma WaitingReachesALaterWindow(now: real, windowSeconds: nat)
    requires windowSeconds >= 1
    ensures 1 <= RetryAfter(now, windowSeconds) <= windowSeconds
    ensures WindowOf(now + RetryAfter(now, windowSeconds) as real, windowSeconds) == WindowOf(now, windowSeconds) + 1
  {
    WindowContains(now, windowSeconds);
    var retry := RetryAfter(now, windowSeconds);
    var q := WindowOf(now, windowSeconds);
    var left := WindowEnd(now, windowSeconds) as real - now;
    assert 0.0 < left <= windowSeconds as real;
    assert left <= retry as real < left + 1.0;
    assert (q + 2) * windowSeconds == WindowEnd(now, windowSeconds) + windowSeconds;
    assert now + retry as real >= ((q + 1) * windowSeconds) as real;
    RetryStaysBelow(now, left, retry, windowSeconds);
    WindowIsUnique(now + retry as real, windowSeconds, q + 1);
  }

  /** No shorter positive number of whole seconds leaves the window. */
  lemma NoShorterWaitHelps(now: real, windowSeconds: nat, wait: nat)
    requires windowSeconds >= 1 && 1 <= wait < RetryAfter(now, windowSeconds)
    ensures WindowOf(now + wait as real, windowSeconds) == WindowOf(now, windowSeconds)
  {
    WindowContains(now, windowSeconds);
    var q := WindowOf(now, windowSeconds);
    var left := WindowEnd(now, windowSeconds) as real - now;
    assert RetryAfter(now, windowSeconds) as real < left + 1.0;
    assert wait as real <= RetryAfter(now, windowSeconds) as real - 1.0;
    assert (q + 1) * windowSeconds == WindowEnd(now, windowSeconds);
    WindowIsUnique(now + wait as real, windowSeconds, q);
  }

  /** The wait is rounded up to whole seconds, which never skips a window. */
  lemma RetryStaysBelow(now: real, left: real, retry: int, w: nat)
    requires w >= 1 && 0.0 < left <= w as real && retry as real < left + 1.0 && retry >= 1
    ensures retry <= w
    ensures now + retry as real < now + left + w as real
  {
  }

  // ---------------------------------------------------------------- the counter store

  predicate Admits(c: Counters, key: CounterKey, limit: nat) {
    limit >= 1 && CountOf(c, key) < limit
  }

  function Consumed(c: Counters, key: CounterKey, limit: nat): Counters {
    if Admits(c, key, limit) then c[key := CountOf(c, key) + 1] else c
  }

  /** A store call is answered, or its reply is lost and the conditional write may have happened. */
  datatype StoreReply = Answered | Lost(written: bool)

  /** The counters after a call, by what became of it. */
  function AfterCall(c: Counters, key: CounterKey, limit: nat, reply: StoreReply): Counters {
    if reply == Lost(false) then c else Consumed(c, key, limit)
  }

  /** The conditional counters shared by every worker. */
  class RateLimitStore {
    var counters: Counters

    constructor ()
      ensures counters == map[]
    {
      counters := map[];
    }

    method Consume(key: CounterKey, limit: nat) returns (admitted: bool)
      modifies this
      ensures admitted <==> limit >= 1 && (key in old(counters) ==> old(counters)[key] < limit)
      ensures counters == if !admitted then old(counters)
                          else old(counters)[key := if key in old(counters) then old(counters)[key] + 1 else 1]
    {
      if limit < 1 {
        return false;
      }
      if key !in counters {
        counters := counters[key := 1];
        return true;
      }
      if counters[key] < limit {
        counters := counters[key := counters[key] + 1];
        return true;
      }
      return false;
    }

    /** A call whose reply never arrives. */
    method ConsumeUnanswered(key: CounterKey, limit: nat, written: bool)
      modifies this
      ensures counters == AfterCall(old(counters), key, limit, Lost(written))
    {
      if written {
        var admitted := Consume(key, limit);
      }
    }
  }

  function KeyAt(scope: string, policy: RatePolicy, subject: seq<string>, now: real): CounterKey
  {
    CounterKey(scope, policy.name, policy.windowSeconds, WindowOf(now, policy.windowSeconds), subject)
  }

  /** Two requests draw on one counter exactly when scope, policy, window length, subject and window are the same. */
  lemma CountersAreSeparate(a: Request, b: Request)
    ensures a.Key() == b.Key() <==>
            && a.scope == b.scope && a.policy.name == b.policy.name && a.policy.windowSeconds == b.policy.windowSeconds
            && a.subject == b.subject && SameWindow(a.now, b.now, a.policy.windowSeconds)
  {
    var w := a.policy.windowSeconds;
    if w == b.policy.windowSeconds {
      WindowContains(a.now, w);
      WindowContains(b.now, w);
      assert InWindow(a.now, w, WindowOf(a.now, w)) && InWindow(b.now, w, WindowOf(b.now, w));
      if SameWindow(a.now, b.now, w) {
        var q: int :| InWindow(a.now, w, q) && InWindow(b.now, w, q);
        WindowIsUnique(a.now, w, q);
        WindowIsUnique(b.now, w, q);
      }
    }
  }

  /** The q-th window of this length holds the time. */
  predicate InWindow(now: real, windowSeconds: nat, q: int) {
    (q * windowSeconds) as real <= now < (q * windowSeconds + windowSeconds) as real
  }

  ghost predicate SameWindow(a: real, b: real, windowSeconds: nat) {
    exists q: int :: InWindow(a, windowSeconds, q) && InWindow(b, windowSeconds, q)
  }

  /** A request whose store call goes unanswered is never admitted, counted or not. */
  method EnforceRateLimit(store: RateLimitStore, policy: RatePolicy, subject: seq<string>, multiplier: nat,
                          scope: string, now: real, reply: StoreReply)
    returns (r: Result<bool, RateError>)
    modifies store
    ensures multiplier < 1 || scope !in ["api", "worker"] ==>
              r == Err(InvalidAdmission) && store.counters == old(store.counters)
    ensures multiplier >= 1 && scope in ["api", "worker"] ==>
              var key := KeyAt(scope, policy, subject, now);
              var limit := policy.requests * multiplier;
              && store.counters == AfterCall(old(store.counters), key, limit, reply)
              && r == if reply.Lost? then Err(RateStoreUnavailable)
                      else if Admits(old(store.counters), key, limit) then Ok(true)
                      else Err(RateLimited(RetryAfter(now, policy.windowSeconds)))
  {
    if multiplier < 1 {
      return Err(InvalidAdmission);
    }
    if scope !in ["api", "worker"] {
      return Err(InvalidAdmission);
    }
    var window := WindowOf(now, policy.windowSeconds);
    var windowEnd := (window + 1) * policy.windowSeconds;
    var key := CounterKey(scope, policy.name, policy.windowSeconds, window, subject);
    if reply.Lost? {
      store.ConsumeUnanswered(key, policy.requests * multiplier, reply.written);
      return Err(RateStoreUnavailable);
    }
    var admitted := store.Consume(key, policy.requests * multiplier);
    if !admitted {
      return Err(RateLimited(Max(1, Ceiling(windowEnd as real - now))));
    }
    return Ok(true);
  }

  // ---------------------------------------------------------------- traces

  /** One call reaching the store, with the clock it read; callers and policies may interleave. */
  datatype Request = Request(now: real, scope: string, policy: RatePolicy, subject: seq<string>, multiplier: nat,
                             reply: StoreReply)
  {
    function Key(): CounterKey {
      KeyAt(scope, policy, subject, now)
    }

    function Limit(): nat {
      policy.requests * multiplier
    }
  }

  function CountersAfter(c: Counters, trace: seq<Request>): Counters {
    if trace == [] then c
    else
      var last := trace[|trace| - 1];
      AfterCall(CountersAfter(c, trace[..|trace| - 1]), last.Key(), last.Limit(), last.reply)
  }

  /** How many requests of a trace that satisfy p were admitted. */
  function CountAdmitted(c: Counters, trace: seq<Request>, p: Request -> bool): nat {
    if trace == [] then 0
    else
      var n := |trace| - 1;
      CountAdmitted(c, trace[..n], p)
      + (if p(trace[n]) && trace[n].reply.Answered?
            && Admits(CountersAfter(c, trace[..n]), trace[n].Key(), trace[n].Limit()) then 1 else 0)
  }

  function CountMatching(trace: seq<Request>, p: Request -> bool): nat {
    if trace == [] then 0
    else CountMatching(trace[..|trace| - 1], p) + (if p(trace[|trace| - 1]) then 1 else 0)
  }

  function ForKey(key: CounterKey): Request -> bool {
    (r: Request) => r.Key() == key
  }

  predicate LimitIs(trace: seq<Request>, key: CounterKey, limit: nat) {
    forall i :: 0 <= i < |trace| && trace[i].Key() == key ==> trace[i].policy.requests * trace[i].multiplier == limit
  }

  /** The calls for a key that reach the table, their reply received or not. */
  function Reaching(key: CounterKey): Request -> bool {
    (r: Request) => r.Key() == key && r.reply != Lost(false)
  }

  /**
   Each window counts exactly the first `limit` calls that reach its counter, in whatever order keys
   interleave, and admits no more than it counts; when every call is answered it admits them all.
   */
  lemma {:induction false} WindowAdmitsExactlyTheLimit(trace: seq<Request>, key: CounterKey, limit: nat)
    requires limit >= 1 && LimitIs(trace, key, limit)
    ensures CountOf(CountersAfter(map[], trace), key) == Min(limit, CountMatching(trace, Reaching(key)))
    ensures CountAdmitted(map[], trace, ForKey(key)) <= CountOf(CountersAfter(map[], trace), key)
    ensures (forall i :: 0 <= i < |trace| ==> trace[i].reply.Answered?) ==>
              CountAdmitted(map[], trace, ForKey(key)) == Min(limit, CountMatching(trace, ForKey(key)))
    decreases |trace|
  {
    if trace != [] {
      var n := |trace| - 1;
      WindowAdmitsExactlyTheLimit(trace[..n], key, limit);
      if forall i :: 0 <= i < |trace| ==> trace[i].reply.Answered? {
        AnsweredCallsReach(trace, key);
        AnsweredCallsReach(trace[..n], key);
      }
    }
  }

  lemma {:induction false} AnsweredCallsReach(trace: seq<Request>, key: CounterKey)
    requires forall i :: 0 <= i < |trace| ==> trace[i].reply.Answered?
    ensures CountMatching(trace, Reaching(key)) == CountMatching(trace, ForKey(key))
    decreases |trace|
  {
    if trace != [] {
      AnsweredCallsReach(trace[..|trace| - 1], key);
    }
  }

  /** The requests that draw on one caller's quota. */
  predicate OfCaller(r: Request, scope: string, policy: RatePolicy, subject: seq<string>) {
    && r.scope == scope && r.policy.name == policy.name && r.policy.windowSeconds == policy.windowSeconds
    && r.subject == subject
  }

  /** Those of them whose clock lies in the interval of one window length from start. */
  function Within(scope: string, policy: RatePolicy, subject: seq<string>, start: real): Request -> bool {
    (r: Request) => OfCaller(r, scope, policy, subject) && start <= r.now < start + policy.windowSeconds as real
  }

  predicate CallerLimitIs(trace: seq<Request>, scope: string, policy: RatePolicy, subject: seq<string>, limit: nat) {
    forall i :: 0 <= i < |trace| && OfCaller(trace[i], scope, policy, subject) ==> trace[i].Limit() == limit
  }

  /** An interval one window long meets at most two windows. */
  lemma IntervalMeetsTwoWindows(now: real, start: real, windowSeconds: nat)
    requires windowSeconds >= 1 && start <= now < start + windowSeconds as real
    ensures WindowOf(now, windowSeconds) in {WindowOf(start, windowSeconds), WindowOf(start, windowSeconds) + 1}
  {
    WindowContains(now, windowSeconds);
    WindowContains(start, windowSeconds);
    var p, q := WindowOf(now, windowSeconds), WindowOf(start, windowSeconds);
    assert (q + 2) * windowSeconds == q * windowSeconds + windowSeconds + windowSeconds;
    assert (p * windowSeconds) as real < ((q + 2) * windowSeconds) as real;
    OrderOfProducts(p, q + 2, windowSeconds);
    assert (q * windowSeconds) as real < (WindowEnd(now, windowSeconds)) as real;
    OrderOfProducts(q, p + 1, windowSeconds);
  }

  lemma {:induction false} CountSplits(c: Counters, trace: seq<Request>, p: Request -> bool,
                                       a: Request -> bool, b: Request -> bool)
    requires forall i :: 0 <= i < |trace| && p(trace[i]) ==> a(trace[i]) || b(trace[i])
    ensures CountAdmitted(c, trace, p) <= CountAdmitted(c, trace, a) + CountAdmitted(c, trace, b)
    decreases |trace|
  {
    if trace != [] {
      CountSplits(c, trace[..|trace| - 1], p, a, b);
    }
  }

  /** At most twice the limit is admitted in any interval one window long, wherever it starts. */
  lemma AnyIntervalAdmitsAtMostTwice(trace: seq<Request>, scope: string, policy: RatePolicy, subject: seq<string>,
                                     limit: nat, start: real)
    requires limit >= 1 && CallerLimitIs(trace, scope, policy, subject, limit)
    ensures CountAdmitted(map[], trace, Within(scope, policy, subject, start)) <= 2 * limit
  {
    var first := KeyAt(scope, policy, subject, start);
    var second := first.(window := first.window + 1);
    forall i | 0 <= i < |trace| && Within(scope, policy, subject, start)(trace[i])
      ensures ForKey(first)(trace[i]) || ForKey(second)(trace[i])
    {
      IntervalMeetsTwoWindows(trace[i].now, start, policy.windowSeconds);
    }
    CountSplits(map[], trace, Within(scope, policy, subject, start), ForKey(first), ForKey(second));
    WindowAdmitsExactlyTheLimit(trace, first, limit);
    WindowAdmitsExactlyTheLimit(trace, second, limit);
  }

  // ---------------------------------------------------------------- the bound is reached

  lemma {:induction false} CountJoins(c: Counters, trace: seq<Request>, p: Request -> bool,
                                      a: Request -> bool, b: Request -> bool)
    requires forall i :: 0 <= i < |trace| && (a(trace[i]) || b(trace[i])) ==> p(trace[i])
    requires forall i :: 0 <= i < |trace| ==> !(a(trace[i]) && b(trace[i]))
    ensures CountAdmitted(c, trace, p) >= CountAdmitted(c, trace, a) + CountAdmitted(c, trace, b)
    decreases |trace|
  {
    if trace != [] {
      CountJoins(c, trace[..|trace| - 1], p, a, b);
    }
  }

  lemma {:induction false} CountAtLeast(trace: seq<Request>, p: Request -> bool, lo: nat, hi: nat)
    requires lo <= hi <= |trace| && forall i :: lo <= i < hi ==> p(trace[i])
    ensures CountMatching(trace, p) >= hi - lo
    decreases |trace|
  {
    if trace != [] {
      var n := |trace| - 1;
      CountAtLeast(trace[..n], p, Min(lo, n), Min(hi, n));
    }
  }

  /** A full quota just before a window ends and one as it ends: twice the limit within half a second. */
  lemma TwiceTheLimitIsReached(scope: string, policy: RatePolicy, subject: seq<string>)
    returns (trace: seq<Request>, start: real)
    ensures CallerLimitIs(trace, scope, policy, subject, policy.requests)
    ensures CountAdmitted(map[], trace, Within(scope, policy, subject, start)) == 2 * policy.requests
  {
    var n, w := policy.requests, policy.windowSeconds;
    var edge := w as real;
    start := edge - 0.5;
    trace := seq(2 * n, i => Request(if i < n then edge - 0.5 else edge, scope, policy, subject, 1, Answered));
    WindowIsUnique(start, w, 0);
    WindowIsUnique(edge, w, 1);
    var first, second := KeyAt(scope, policy, subject, start), KeyAt(scope, policy, subject, edge);
    CountAtLeast(trace, ForKey(first), 0, n);
    CountAtLeast(trace, ForKey(second), n, 2 * n);
    WindowAdmitsExactlyTheLimit(trace, first, n);
    WindowAdmitsExactlyTheLimit(trace, second, n);
    CountJoins(map[], trace, Within(scope, policy, subject, start), ForKey(first), ForKey(second));
    AnyIntervalAdmitsAtMostTwice(trace, scope, policy, subject, n, start);
  }
}
