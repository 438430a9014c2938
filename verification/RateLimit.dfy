/** The in-process token-bucket limiter: lazy refill, cap, and a sweep that forgets idle buckets.

    A `Limiter` value is the abstract state of the class `MemoryRateLimiter`; `Step` is one
    call of `check`, and `Serve` is the same call on a limiter that never sweeps.
 */
module RateLimit {

  const SWEEP_INTERVAL: real := 300.0
  const STALE_WINDOWS: int := 4

  datatype Decision = Decision(allowed: bool, remaining: int, retryAfter: int)

  datatype Bucket = Bucket(tokens: real, updated: real)

  datatype Limiter = Limiter(buckets: map<string, Bucket>, lastSweep: real)

  /** One call of `check`, with the reading of the monotonic clock made explicit. */
  datatype Call = Call(key: string, limit: int, window: int, now: real)

  /** `limit / window` and `1 / rate` must both be defined. */
  predicate ValidCall(c: Call) {
    c.limit >= 1 && c.window >= 1
  }

  function Rate(limit: int, window: int): (rate: real)
    requires limit >= 1 && window >= 1
    ensures rate > 0.0
  {
    limit as real / window as real
  }

  function Cap(limit: int, tokens: real): real {
    if tokens < limit as real then tokens else limit as real
  }

  /** What a bucket gains between two readings of the clock. */
  function Accrued(since: real, now: real, rate: real): real {
    (now - since) * rate
  }

  function Refill(b: Bucket, limit: int, rate: real, now: real): real {
    Cap(limit, b.tokens + Accrued(b.updated, now, rate))
  }

  function RetryAfter(tokens: real, rate: real): int
    requires rate > 0.0
  {
    var whole := ((1.0 - tokens) / rate).Floor;
    if whole > 1 then whole else 1
  }

  /** The decision on a refilled bucket, and the tokens it leaves. */
  function Decide(tokens: real, rate: real): (Decision, real)
    requires rate > 0.0
  {
    if tokens >= 1.0 then
      (Decision(true, (tokens - 1.0).Floor, 0), tokens - 1.0)
    else
      (Decision(false, 0, RetryAfter(tokens, rate)), tokens)
  }

  function Lookup(s: Limiter, c: Call): Bucket {
    if c.key in s.buckets then s.buckets[c.key] else Bucket(c.limit as real, c.now)
  }

  function Serve(s: Limiter, c: Call): (Limiter, Decision)
    requires ValidCall(c)
  {
    var rate := Rate(c.limit, c.window);
    var (decision, left) := Decide(Refill(Lookup(s, c), c.limit, rate, c.now), rate);
    (s.(buckets := s.buckets[c.key := Bucket(left, c.now)]), decision)
  }

  predicate Stale(b: Bucket, now: real, window: int) {
    now - b.updated > (window * STALE_WINDOWS) as real
  }

  function Fresh(buckets: map<string, Bucket>, now: real, window: int): map<string, Bucket> {
    map k | k in buckets && !Stale(buckets[k], now, window) :: buckets[k]
  }

  function SweepIfDue(s: Limiter, c: Call): Limiter {
    if c.now - s.lastSweep > SWEEP_INTERVAL
    then Limiter(Fresh(s.buckets, c.now, c.window), c.now)
    else s
  }

  function Step(s: Limiter, c: Call): (Limiter, Decision)
    requires ValidCall(c)
  {
    Serve(SweepIfDue(s, c), c)
  }

  /** The tokens a call finds: a share of the limit for every second since the last call, up to the limit. */
  function TokensAt(b: Bucket, c: Call): real
    requires ValidCall(c)
  {
    var accrued := b.tokens + (c.now - b.updated) * (c.limit as real / c.window as real);
    if accrued < c.limit as real then accrued else c.limit as real
  }

  /** What a call does, in the numbers of the configuration. */
  ghost predicate Spends(s: Limiter, c: Call, s': Limiter, decision: Decision)
    requires ValidCall(c)
  {
    var due := c.now - s.lastSweep > 300.0;
    var known := c.key in s.buckets && !(due && c.now - s.buckets[c.key].updated > 4.0 * c.window as real);
    var before := if known then s.buckets[c.key] else Bucket(c.limit as real, c.now);
    var tokens := TokensAt(before, c);
    && (decision.allowed <==> tokens >= 1.0)
    && (decision.allowed ==> decision.remaining == (tokens - 1.0).Floor && decision.retryAfter == 0)
    && (!decision.allowed ==> decision.remaining == 0 && decision.retryAfter >= 1)
    && c.key in s'.buckets
    && s'.buckets[c.key] == Bucket(if decision.allowed then tokens - 1.0 else tokens, c.now)
    && s'.lastSweep == if due then c.now else s.lastSweep
  }

  /** What it does to everyone else. */
  ghost predicate ForgetsStale(s: Limiter, c: Call, s': Limiter) {
    var due := c.now - s.lastSweep > 300.0;
    forall k :: k != c.key ==>
      (k in s'.buckets <==> k in s.buckets && !(due && c.now - s.buckets[k].updated > 4.0 * c.window as real))
      && (k in s'.buckets ==> s'.buckets[k] == s.buckets[k])
  }

  lemma SweepIs(s: Limiter, c: Call)
    ensures
      var due := c.now - s.lastSweep > 300.0;
      && SweepIfDue(s, c).lastSweep == (if due then c.now else s.lastSweep)
      && forall k ::
        (k in SweepIfDue(s, c).buckets <==>
          k in s.buckets && !(due && c.now - s.buckets[k].updated > 4.0 * c.window as real))
        && (k in SweepIfDue(s, c).buckets ==> SweepIfDue(s, c).buckets[k] == s.buckets[k])
  {}

  lemma RefillIs(b: Bucket, c: Call)
    requires ValidCall(c)
    ensures Refill(b, c.limit, Rate(c.limit, c.window), c.now) == TokensAt(b, c)
  {}

  lemma DecideIs(tokens: real, rate: real)
    requires rate > 0.0
    ensures
      var (decision, left) := Decide(tokens, rate);
      && (decision.allowed <==> tokens >= 1.0)
      && (decision.allowed ==> decision.remaining == (tokens - 1.0).Floor && decision.retryAfter == 0)
      && (!decision.allowed ==> decision.remaining == 0 && decision.retryAfter >= 1)
      && left == if decision.allowed then tokens - 1.0 else tokens
  {}

  lemma StepIs(s: Limiter, c: Call)
    requires ValidCall(c)
    ensures Spends(s, c, Step(s, c).0, Step(s, c).1) && ForgetsStale(s, c, Step(s, c).0)
  {
    SweepIs(s, c);
    var before := Lookup(SweepIfDue(s, c), c);
    RefillIs(before, c);
    DecideIs(Refill(before, c.limit, Rate(c.limit, c.window), c.now), Rate(c.limit, c.window));
    hide SweepIfDue, Refill, Rate, Decide, TokensAt;
  }

  class MemoryRateLimiter {
    var buckets: map<string, Bucket>
    var lastSweep: real

    ghost function View(): Limiter
      reads this
    {
      Limiter(buckets, lastSweep)
    }

    constructor (now: real)
      ensures View() == Limiter(map[], now)
    {
      buckets := map[];
      lastSweep := now;
    }

    method Check(key: string, limit: int, window: int, now: real) returns (decision: Decision)
      requires limit >= 1 && window >= 1
      modifies this
      ensures (View(), decision) == Step(old(View()), Call(key, limit, window, now))
      ensures Spends(old(View()), Call(key, limit, window, now), View(), decision)
      ensures ForgetsStale(old(View()), Call(key, limit, window, now), View())
    {
      var rate := Rate(limit, window);
      ghost var c := Call(key, limit, window, now);
      if now - lastSweep > SWEEP_INTERVAL {
        Sweep(now, window);
      }
      ghost var due := View();
      assert due == SweepIfDue(old(View()), c);
      if key !in buckets {
        buckets := buckets[key := Bucket(limit as real, now)];
      }
      var tokens := Refill(buckets[key], limit, rate, now);
      buckets := buckets[key := Bucket(tokens, now)];
      if tokens >= 1.0 {
        buckets := buckets[key := Bucket(tokens - 1.0, now)];
        decision := Decision(true, (tokens - 1.0).Floor, 0);
      } else {
        decision := Decision(false, 0, RetryAfter(tokens, rate));
      }
      assert View().buckets == Serve(due, c).0.buckets;
      StepIs(old(View()), c);
      hide Spends, ForgetsStale;
    }

    method Sweep(now: real, window: int)
      modifies this
      ensures buckets == Fresh(old(buckets), now, window) && lastSweep == now
    {
      var stale := set k | k in buckets && Stale(buckets[k], now, window);
      while stale != {}
        invariant forall k :: k in stale ==> k in buckets && Stale(old(buckets)[k], now, window)
        invariant forall k :: k in buckets ==> k in old(buckets) && buckets[k] == old(buckets)[k]
        invariant forall k :: k in old(buckets) && k !in buckets ==> Stale(old(buckets)[k], now, window)
        invariant forall k :: k in buckets && Stale(old(buckets)[k], now, window) ==> k in stale
      {
        var k :| k in stale;
        stale := stale - {k};
        buckets := buckets - {k};
      }
      lastSweep := now;
    }

    method Reset()
      modifies this
      ensures buckets == map[] && lastSweep == old(lastSweep)
    {
      buckets := map[];
    }
  }

  // ---------------------------------------------------------------------------------------
  // Arithmetic of the refill rate
  // ---------------------------------------------------------------------------------------

  lemma AccruedSign(since: real, now: real, rate: real)
    requires rate > 0.0 && since <= now
    ensures Accrued(since, now, rate) >= 0.0
    ensures since == now ==> Accrued(since, now, rate) == 0.0
  {}

  /** Splitting a wait splits what accrues. */
  lemma AccruedSplits(since: real, mid: real, now: real, rate: real)
    ensures Accrued(since, now, rate) == Accrued(since, mid, rate) + Accrued(mid, now, rate)
  {}

  lemma AccruedOverWindow(since: real, now: real, limit: int, window: int)
    requires limit >= 1 && window >= 1 && since <= now
    ensures now - since >= window as real <==> Accrued(since, now, Rate(limit, window)) >= limit as real
  {
    var rate := Rate(limit, window);
    assert rate * window as real == limit as real;
    assert (now - since) * rate - limit as real == (now - since - window as real) * rate;
  }

  lemma RefillBounds(b: Bucket, limit: int, rate: real, now: real)
    requires rate > 0.0 && b.tokens >= 0.0 && b.updated <= now && limit >= 1
    ensures 0.0 <= Refill(b, limit, rate, now) <= limit as real
    ensures b.tokens >= limit as real ==> Refill(b, limit, rate, now) == limit as real
  {
    hide Accrued;
    AccruedSign(b.updated, now, rate);
  }

  /** A whole window without a check fills any bucket. */
  lemma IdleBucketIsFull(b: Bucket, limit: int, window: int, now: real)
    requires limit >= 1 && window >= 1 && b.tokens >= 0.0
    requires now - b.updated >= window as real
    ensures Refill(b, limit, Rate(limit, window), now) == limit as real
  {
    AccruedOverWindow(b.updated, now, limit, window);
  }

  // ---------------------------------------------------------------------------------------
  // Runs
  // ---------------------------------------------------------------------------------------

  predicate Monotone(start: real, calls: seq<Call>)
    decreases calls
  {
    calls == [] || (start <= calls[0].now && Monotone(calls[0].now, calls[1..]))
  }

  predicate Drawn(windows: set<int>, calls: seq<Call>) {
    forall i :: 0 <= i < |calls| ==> ValidCall(calls[i]) && calls[i].window in windows
  }

  function Decisions(s: Limiter, calls: seq<Call>): (ds: seq<Decision>)
    requires forall i :: 0 <= i < |calls| ==> ValidCall(calls[i])
    ensures |ds| == |calls|
    decreases calls
  {
    if calls == [] then []
    else
      var (s', d) := Step(s, calls[0]);
      [d] + Decisions(s', calls[1..])
  }

  function PlainDecisions(s: Limiter, calls: seq<Call>): (ds: seq<Decision>)
    requires forall i :: 0 <= i < |calls| ==> ValidCall(calls[i])
    ensures |ds| == |calls|
    decreases calls
  {
    if calls == [] then []
    else
      var (s', d) := Serve(s, calls[0]);
      [d] + PlainDecisions(s', calls[1..])
  }

  function Started(now: real): Limiter {
    Limiter(map[], now)
  }

  // ---------------------------------------------------------------------------------------
  // The sweep is unobservable exactly when no window exceeds four times another
  // ---------------------------------------------------------------------------------------

  predicate WindowsWithin(windows: set<int>) {
    forall w, v :: w in windows && v in windows ==> w <= v * STALE_WINDOWS
  }

  ghost predicate SweepUnobservable(windows: set<int>) {
    forall start: real, calls: seq<Call> :: Monotone(start, calls) && Drawn(windows, calls) ==>
      Decisions(Started(start), calls) == PlainDecisions(Started(start), calls)
  }

  /** The swept limiter knows a part of the unswept one, and what it forgot is full again
      by every window in use. */
  ghost predicate Forgets(windows: set<int>, swept: Limiter, plain: Limiter, now: real) {
    && (forall k :: k in swept.buckets ==> k in plain.buckets && swept.buckets[k] == plain.buckets[k])
    && (forall k :: k in plain.buckets ==> plain.buckets[k].tokens >= 0.0)
    && (forall k, w :: k in plain.buckets && k !in swept.buckets && w in windows ==>
          now - plain.buckets[k].updated >= w as real)
  }

  lemma SweepForgets(windows: set<int>, swept: Limiter, plain: Limiter, before: real, c: Call)
    requires WindowsWithin(windows) && c.window in windows
    requires before <= c.now && Forgets(windows, swept, plain, before)
    ensures Forgets(windows, SweepIfDue(swept, c), plain, c.now)
  {}

  lemma ServeForgets(windows: set<int>, swept: Limiter, plain: Limiter, c: Call)
    requires ValidCall(c) && c.window in windows && Forgets(windows, swept, plain, c.now)
    requires forall k :: k in plain.buckets ==> plain.buckets[k].updated <= c.now
    ensures Serve(swept, c).1 == Serve(plain, c).1
    ensures Forgets(windows, Serve(swept, c).0, Serve(plain, c).0, c.now)
  {
    RefillBounds(Lookup(swept, c), c.limit, Rate(c.limit, c.window), c.now);
    if c.key in plain.buckets && c.key !in swept.buckets {
      IdleBucketIsFull(plain.buckets[c.key], c.limit, c.window, c.now);
    }
  }

  lemma {:induction false} SweptRefinesPlain(
      windows: set<int>, swept: Limiter, plain: Limiter, now: real, calls: seq<Call>)
    requires WindowsWithin(windows) && Drawn(windows, calls) && Monotone(now, calls)
    requires Forgets(windows, swept, plain, now)
    requires forall k :: k in plain.buckets ==> plain.buckets[k].updated <= now
    ensures Decisions(swept, calls) == PlainDecisions(plain, calls)
    decreases calls
  {
    if calls != [] {
      var c := calls[0];
      SweepForgets(windows, swept, plain, now, c);
      ServeForgets(windows, SweepIfDue(swept, c), plain, c);
      SweptRefinesPlain(windows, Step(swept, c).0, Serve(plain, c).0, c.now, calls[1..]);
    }
  }

  /** One token drained under a long window, swept by a caller with a short one. */
  function ForgettingRun(long: int, short: int): seq<Call> {
    var late := SWEEP_INTERVAL + ((short * STALE_WINDOWS) as real + long as real) / 2.0;
    [Call("a", 1, long, SWEEP_INTERVAL), Call("b", 1, short, late), Call("a", 1, long, late)]
  }

  lemma ForgettingRunIsObserved(windows: set<int>, long: int, short: int)
    requires long in windows && short in windows && long > short * STALE_WINDOWS && short >= 1
    ensures var calls := ForgettingRun(long, short);
            && Monotone(0.0, calls) && Drawn(windows, calls)
            && Decisions(Started(0.0), calls)[2].allowed
            && !PlainDecisions(Started(0.0), calls)[2].allowed
  {
    var calls := ForgettingRun(long, short);
    var late := calls[1].now;
    assert calls[1..] == [calls[1], calls[2]] && calls[2..] == [calls[2]];
    assert Monotone(late, calls[2..]) && Monotone(SWEEP_INTERVAL, calls[1..]);

    var s1 := Step(Started(0.0), calls[0]).0;
    assert s1 == Limiter(map["a" := Bucket(0.0, SWEEP_INTERVAL)], 0.0);
    var s2 := Step(s1, calls[1]).0;
    assert Stale(s1.buckets["a"], late, short);
    assert "a" !in s2.buckets;
    assert Step(s2, calls[2]).1.allowed;
    assert Decisions(s1, calls[1..])[1] == Decisions(s2, calls[1..][1..])[0];

    var p2 := Serve(s1, calls[1]).0;
    assert p2.buckets["a"] == Bucket(0.0, SWEEP_INTERVAL);
    AccruedOverWindow(SWEEP_INTERVAL, late, 1, long);
    assert !Serve(p2, calls[2]).1.allowed;
    assert PlainDecisions(s1, calls[1..])[1] == PlainDecisions(p2, calls[1..][1..])[0];
  }

  lemma SweepUnobservableIff(windows: set<int>)
    requires forall w :: w in windows ==> w >= 1
    ensures SweepUnobservable(windows) <==> WindowsWithin(windows)
  {
    if WindowsWithin(windows) {
      forall start: real, calls: seq<Call> | Monotone(start, calls) && Drawn(windows, calls)
        ensures Decisions(Started(start), calls) == PlainDecisions(Started(start), calls)
      {
        SweptRefinesPlain(windows, Started(start), Started(start), start, calls);
      }
    } else {
      var long, short :| long in windows && short in windows && long > short * STALE_WINDOWS;
      ForgettingRunIsObserved(windows, long, short);
    }
  }
}
