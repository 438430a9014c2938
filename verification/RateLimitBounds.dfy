/** What one key can get out of the limiter: the checks of a key see a private bucket, `check`
    admits at least as much as any other policy on that bucket, no more than the rate
    envelope, and the retry hint is tight to one second.
 */
module RateLimitBounds {
  import opened RateLimit

  /** The checks of one key, on its own bucket. */
  function Grants(b: Bucket, limit: int, rate: real, times: seq<real>): (grants: seq<bool>)
    requires rate > 0.0
    ensures |grants| == |times|
    decreases times
  {
    if times == [] then []
    else
      var (d, left) := Decide(Refill(b, limit, rate, times[0]), rate);
      [d.allowed] + Grants(Bucket(left, times[0]), limit, rate, times[1..])
  }

  function After(b: Bucket, limit: int, rate: real, times: seq<real>): Bucket
    requires rate > 0.0
    decreases times
  {
    if times == [] then b
    else After(Next(b, limit, rate, times[0]), limit, rate, times[1..])
  }

  function Next(b: Bucket, limit: int, rate: real, at: real): Bucket
    requires rate > 0.0
  {
    Bucket(Decide(Refill(b, limit, rate, at), rate).1, at)
  }

  predicate Ordered(start: real, times: seq<real>)
    decreases times
  {
    times == [] || (start <= times[0] && Ordered(times[0], times[1..]))
  }

  function Count(bs: seq<bool>): nat {
    if bs == [] then 0 else (if bs[0] then 1 else 0) + Count(bs[1..])
  }

  // ---------------------------------------------------------------------------------------
  // Keys do not interfere
  // ---------------------------------------------------------------------------------------

  function Own(key: string, calls: seq<Call>): seq<real> {
    if calls == [] then []
    else if calls[0].key == key then [calls[0].now] + Own(key, calls[1..])
    else Own(key, calls[1..])
  }

  function OwnGrants(key: string, calls: seq<Call>, ds: seq<Decision>): seq<bool>
    requires |calls| == |ds|
  {
    if calls == [] then []
    else if calls[0].key == key then [ds[0].allowed] + OwnGrants(key, calls[1..], ds[1..])
    else OwnGrants(key, calls[1..], ds[1..])
  }

  predicate Configured(key: string, limit: int, window: int, calls: seq<Call>) {
    && limit >= 1 && window >= 1
    && forall i :: 0 <= i < |calls| ==>
      ValidCall(calls[i]) && (calls[i].key == key ==> calls[i].limit == limit && calls[i].window == window)
  }

  function StateAfter(s: Limiter, calls: seq<Call>): Limiter
    requires forall i :: 0 <= i < |calls| ==> ValidCall(calls[i])
    decreases calls
  {
    if calls == [] then s else StateAfter(Step(s, calls[0]).0, calls[1..])
  }

  function LastTime(start: real, calls: seq<Call>): real {
    if calls == [] then start else calls[|calls| - 1].now
  }

  /** No caller's sweep can take a bucket that would not be full again by this window. */
  predicate Sheltered(window: int, calls: seq<Call>) {
    forall i :: 0 <= i < |calls| ==> window <= calls[i].window * STALE_WINDOWS
  }

  /** A key without a bucket behaves as one whose bucket is full, or was not touched for a window. */
  ghost predicate Holds(s: Limiter, key: string, limit: int, window: int, b: Bucket, now: real) {
    && b.tokens >= 0.0 && b.updated <= now
    && if key in s.buckets then s.buckets[key] == b
       else b.tokens == limit as real || now - b.updated >= window as real
  }

  lemma WaitingKeepsHolds(s: Limiter, key: string, limit: int, window: int, b: Bucket, now: real, c: Call)
    requires Holds(s, key, limit, window, b, now) && now <= c.now && window <= c.window * STALE_WINDOWS
    ensures Holds(SweepIfDue(s, c), key, limit, window, b, c.now)
  {}

  lemma ServeOwnKey(s: Limiter, c: Call, b: Bucket)
    requires ValidCall(c) && Holds(s, c.key, c.limit, c.window, b, c.now)
    ensures var rate := Rate(c.limit, c.window);
            && Serve(s, c).1 == Decide(Refill(b, c.limit, rate, c.now), rate).0
            && Holds(Serve(s, c).0, c.key, c.limit, c.window, Next(b, c.limit, rate, c.now), c.now)
  {
    var rate := Rate(c.limit, c.window);
    RefillBounds(b, c.limit, rate, c.now);
    if c.key !in s.buckets {
      RefillBounds(Lookup(s, c), c.limit, rate, c.now);
      if c.now - b.updated >= c.window as real {
        IdleBucketIsFull(b, c.limit, c.window, c.now);
      }
    }
  }

  /** The decisions on a key are those of a private bucket, whatever the other keys do. */
  lemma {:induction false} OwnBucketDecides(
      s: Limiter, key: string, limit: int, window: int, b: Bucket, now: real, calls: seq<Call>)
    requires Configured(key, limit, window, calls) && Sheltered(window, calls) && Monotone(now, calls)
    requires Holds(s, key, limit, window, b, now)
    ensures OwnGrants(key, calls, Decisions(s, calls))
         == Grants(b, limit, Rate(limit, window), Own(key, calls))
    ensures Holds(StateAfter(s, calls), key, limit, window,
                  After(b, limit, Rate(limit, window), Own(key, calls)), LastTime(now, calls))
    decreases calls
  {
    if calls != [] {
      var c := calls[0];
      var due, s' := SweepIfDue(s, c), Step(s, c).0;
      WaitingKeepsHolds(s, key, limit, window, b, now, c);
      assert LastTime(now, calls) == LastTime(c.now, calls[1..]);
      if c.key == key {
        ServeOwnKey(due, c, b);
        var b' := Next(b, limit, Rate(limit, window), c.now);
        OwnBucketDecides(s', key, limit, window, b', c.now, calls[1..]);
        assert Own(key, calls)[1..] == Own(key, calls[1..]);
      } else {
        assert Holds(s', key, limit, window, b, c.now);
        OwnBucketDecides(s', key, limit, window, b, c.now, calls[1..]);
      }
    }
  }

  lemma ChecksSeeOneBucket(start: real, calls: seq<Call>, key: string, limit: int, window: int)
    requires Configured(key, limit, window, calls) && Sheltered(window, calls) && Monotone(start, calls)
    ensures OwnGrants(key, calls, Decisions(Started(start), calls))
         == Grants(Bucket(limit as real, start), limit, Rate(limit, window), Own(key, calls))
  {
    OwnBucketDecides(Started(start), key, limit, window, Bucket(limit as real, start), start, calls);
  }

  lemma {:induction false} OwnOrdered(key: string, start: real, from: real, calls: seq<Call>)
    requires Monotone(start, calls) && from <= start
    ensures Ordered(from, Own(key, calls))
    decreases calls
  {
    if calls != [] {
      var c := calls[0];
      if c.key == key {
        OwnOrdered(key, c.now, c.now, calls[1..]);
        assert Own(key, calls)[1..] == Own(key, calls[1..]);
      } else {
        OwnOrdered(key, c.now, from, calls[1..]);
      }
    }
  }

  // ---------------------------------------------------------------------------------------
  // Greedy admission is optimal
  // ---------------------------------------------------------------------------------------

  /** A policy that accepts some of the checks and never spends a token it does not have. */
  predicate Affordable(b: Bucket, limit: int, rate: real, times: seq<real>, accepts: seq<bool>)
    requires |times| == |accepts|
    decreases times
  {
    times == [] ||
    var tokens := Refill(b, limit, rate, times[0]);
    && (accepts[0] ==> tokens >= 1.0)
    && Affordable(Bucket(if accepts[0] then tokens - 1.0 else tokens, times[0]),
                  limit, rate, times[1..], accepts[1..])
  }

  /** The policy's bucket holds no more than the limiter's, but for the `lead` that the limiter
      has in admissions; a bucket that the limiter has forgotten is full. */
  ghost predicate Ahead(s: Limiter, key: string, limit: int, policy: Bucket, lead: nat) {
    key in s.buckets ==>
      s.buckets[key].updated == policy.updated && s.buckets[key].tokens + lead as real >= policy.tokens
  }

  function Lead(lead: nat, granted: bool, accepted: bool): int {
    lead + (if granted then 1 else 0) - (if accepted then 1 else 0)
  }

  /** A check of the key: where the policy accepts and the limiter does not, there was a lead. */
  lemma OwnStepStaysAhead(s: Limiter, c: Call, policy: Bucket, lead: nat, accepted: bool)
    requires ValidCall(c) && Ahead(s, c.key, c.limit, policy, lead)
    requires var tokens := Refill(policy, c.limit, Rate(c.limit, c.window), c.now);
             accepted ==> tokens >= 1.0
    ensures var tokens := Refill(policy, c.limit, Rate(c.limit, c.window), c.now);
            var (s', d) := Step(s, c);
            && Lead(lead, d.allowed, accepted) >= 0
            && Ahead(s', c.key, c.limit, Bucket(if accepted then tokens - 1.0 else tokens, c.now),
                     Lead(lead, d.allowed, accepted))
  {
    hide Accrued, Rate;
    var rate, due := Rate(c.limit, c.window), SweepIfDue(s, c);
    assert Ahead(due, c.key, c.limit, policy, lead);
    if c.key in due.buckets {
      assert Refill(due.buckets[c.key], c.limit, rate, c.now) + lead as real >= Refill(policy, c.limit, rate, c.now);
    } else {
      RefillOfFull(c.limit, rate, c.now);
      assert Refill(Lookup(due, c), c.limit, rate, c.now) == c.limit as real;
    }
  }

  lemma RefillOfFull(limit: int, rate: real, now: real)
    ensures Refill(Bucket(limit as real, now), limit, rate, now) == limit as real
  {
    assert Accrued(now, now, rate) == 0.0;
  }

  lemma OtherStepStaysAhead(s: Limiter, key: string, limit: int, c: Call, policy: Bucket, lead: nat)
    requires ValidCall(c) && c.key != key && Ahead(s, key, limit, policy, lead)
    ensures Ahead(Step(s, c).0, key, limit, policy, lead)
  {}

  lemma {:induction false} GreedyStaysAhead(
      s: Limiter, key: string, limit: int, window: int, policy: Bucket, lead: nat,
      calls: seq<Call>, accepts: seq<bool>, n: nat)
    requires Configured(key, limit, window, calls) && Ahead(s, key, limit, policy, lead)
    requires |accepts| == |Own(key, calls)| && n <= |accepts|
    requires Affordable(policy, limit, Rate(limit, window), Own(key, calls), accepts)
    ensures |OwnGrants(key, calls, Decisions(s, calls))| == |accepts|
    ensures lead + Count(OwnGrants(key, calls, Decisions(s, calls))[..n]) >= Count(accepts[..n])
    decreases calls
  {
    hide Step, Ahead, Rate, Refill;
    if calls != [] {
      var c := calls[0];
      var (s', d) := Step(s, c);
      var rest := OwnGrants(key, calls[1..], Decisions(s', calls[1..]));
      assert Decisions(s, calls)[1..] == Decisions(s', calls[1..]);
      if c.key == key {
        assert Own(key, calls)[1..] == Own(key, calls[1..]);
        assert OwnGrants(key, calls, Decisions(s, calls)) == [d.allowed] + rest;
        var tokens := Refill(policy, limit, Rate(limit, window), c.now);
        var policy' := Bucket(if accepts[0] then tokens - 1.0 else tokens, c.now);
        OwnStepStaysAhead(s, c, policy, lead, accepts[0]);
        var lead' := Lead(lead, d.allowed, accepts[0]);
        GreedyStaysAhead(
          s', key, limit, window, policy', lead', calls[1..], accepts[1..], if n == 0 then 0 else n - 1);
        if n > 0 {
          CountFirst(d.allowed, rest, n);
          assert [accepts[0]] + accepts[1..] == accepts;
          CountFirst(accepts[0], accepts[1..], n);
        }
      } else {
        OtherStepStaysAhead(s, key, limit, c, policy, lead);
        GreedyStaysAhead(s', key, limit, window, policy, lead, calls[1..], accepts, n);
      }
    }
  }

  lemma CountFirst(b: bool, bs: seq<bool>, n: nat)
    requires 0 < n <= |bs| + 1
    ensures Count(([b] + bs)[..n]) == (if b then 1 else 0) + Count(bs[..n - 1])
  {
    assert ([b] + bs)[..n][1..] == bs[..n - 1];
  }

  /** In every prefix of the checks of a key, no affordable policy accepts more, whatever the
      other keys do and whoever sweeps. */
  lemma GreedyIsOptimal(
      start: real, calls: seq<Call>, key: string, limit: int, window: int, accepts: seq<bool>, n: nat)
    requires Configured(key, limit, window, calls) && Monotone(start, calls)
    requires |accepts| == |Own(key, calls)| && n <= |accepts|
    requires Affordable(Bucket(limit as real, start), limit, Rate(limit, window), Own(key, calls), accepts)
    ensures |OwnGrants(key, calls, Decisions(Started(start), calls))| == |accepts|
    ensures Count(OwnGrants(key, calls, Decisions(Started(start), calls))[..n]) >= Count(accepts[..n])
  {
    GreedyStaysAhead(Started(start), key, limit, window, Bucket(limit as real, start), 0, calls, accepts, n);
  }

  /** The greedy choice is itself such a policy, so it attains the maximum. */
  lemma {:induction false} GreedyIsAffordable(b: Bucket, limit: int, rate: real, times: seq<real>)
    requires rate > 0.0
    ensures Affordable(b, limit, rate, times, Grants(b, limit, rate, times))
    decreases times
  {
    if times != [] {
      GreedyIsAffordable(Next(b, limit, rate, times[0]), limit, rate, times[1..]);
    }
  }

  // ---------------------------------------------------------------------------------------
  // Rate envelope
  // ---------------------------------------------------------------------------------------

  function CountWithin(times: seq<real>, grants: seq<bool>, from: real, to: real): nat
    requires |times| == |grants|
  {
    if times == [] then 0
    else (if grants[0] && from <= times[0] <= to then 1 else 0)
         + CountWithin(times[1..], grants[1..], from, to)
  }

  lemma {:induction false} NothingAfter(times: seq<real>, grants: seq<bool>, from: real, to: real)
    requires |times| == |grants| && times != [] && times[0] > to && Ordered(times[0], times[1..])
    ensures CountWithin(times, grants, from, to) == 0
  {
    if |times| > 1 {
      NothingAfter(times[1..], grants[1..], from, to);
    }
  }

  /** Once inside the interval, what is admitted was in the bucket or accrued since. */
  lemma {:induction false} SpendingIsCovered(
      b: Bucket, limit: int, rate: real, times: seq<real>, from: real, to: real)
    requires rate > 0.0 && limit >= 1 && b.tokens >= 0.0
    requires Ordered(b.updated, times) && b.updated <= to
    ensures CountWithin(times, Grants(b, limit, rate, times), from, to) as real
         <= b.tokens + Accrued(b.updated, to, rate)
    decreases times
  {
    hide Accrued;
    AccruedSign(b.updated, to, rate);
    if times != [] {
      var t := times[0];
      if t > to {
        NothingAfter(times, Grants(b, limit, rate, times), from, to);
      } else {
        RefillBounds(b, limit, rate, t);
        var next := Next(b, limit, rate, t);
        assert Grants(b, limit, rate, times)[1..] == Grants(next, limit, rate, times[1..]);
        SpendingIsCovered(next, limit, rate, times[1..], from, to);
        AccruedSplits(b.updated, t, to, rate);
      }
    }
  }

  lemma {:induction false} BucketEnvelope(
      b: Bucket, limit: int, rate: real, times: seq<real>, from: real, to: real)
    requires rate > 0.0 && limit >= 1 && 0.0 <= b.tokens <= limit as real && from <= to
    requires Ordered(b.updated, times)
    ensures CountWithin(times, Grants(b, limit, rate, times), from, to) as real
         <= limit as real + Accrued(from, to, rate)
    decreases times
  {
    hide Accrued;
    AccruedSign(from, to, rate);
    if times != [] {
      var t := times[0];
      RefillBounds(b, limit, rate, t);
      var next := Next(b, limit, rate, t);
      assert Grants(b, limit, rate, times)[1..] == Grants(next, limit, rate, times[1..]);
      if t < from {
        BucketEnvelope(next, limit, rate, times[1..], from, to);
      } else if t <= to {
        SpendingIsCovered(next, limit, rate, times[1..], from, to);
        AccruedSign(from, t, rate);
        AccruedSplits(from, t, to, rate);
      } else {
        NothingAfter(times, Grants(b, limit, rate, times), from, to);
      }
    }
  }

  /** Sweeps in the interval by callers whose window is less than a quarter of the key's. */
  function EarlySweeps(s: Limiter, calls: seq<Call>, window: int, from: real, to: real): nat
    requires forall i :: 0 <= i < |calls| ==> ValidCall(calls[i])
    decreases calls
  {
    if calls == [] then 0
    else
      var c := calls[0];
      (if c.now - s.lastSweep > SWEEP_INTERVAL && window > c.window * STALE_WINDOWS && from <= c.now <= to then 1
       else 0)
      + EarlySweeps(Step(s, c).0, calls[1..], window, from, to)
  }

  /** What the key could draw at once. */
  function Stock(s: Limiter, key: string, limit: int, rate: real, now: real): real {
    if key in s.buckets then Refill(s.buckets[key], limit, rate, now) else limit as real
  }

  lemma StockAccrues(s: Limiter, key: string, limit: int, rate: real, now: real, later: real)
    requires rate > 0.0 && limit >= 1 && InRange(s, key, limit, now) && now <= later
    ensures 0.0 <= Stock(s, key, limit, rate, now) <= limit as real
    ensures Stock(s, key, limit, rate, later) <= Stock(s, key, limit, rate, now) + Accrued(now, later, rate)
  {
    hide Accrued;
    AccruedSign(now, later, rate);
    if key in s.buckets {
      var b := s.buckets[key];
      AccruedSign(b.updated, now, rate);
      AccruedSplits(b.updated, now, later, rate);
    }
  }

  /** A sweep adds to the stock only if it is early, and then no more than the limit. */
  lemma SweepStock(s: Limiter, key: string, limit: int, window: int, c: Call)
    requires limit >= 1 && window >= 1 && InRange(s, key, limit, c.now)
    ensures var rate := Rate(limit, window);
            var due := SweepIfDue(s, c);
            && InRange(due, key, limit, c.now)
            && Stock(due, key, limit, rate, c.now) <= limit as real
            && (!(c.now - s.lastSweep > SWEEP_INTERVAL && window > c.window * STALE_WINDOWS) ==>
                  Stock(due, key, limit, rate, c.now) == Stock(s, key, limit, rate, c.now))
  {
    if key in s.buckets {
      RefillBounds(s.buckets[key], limit, Rate(limit, window), c.now);
      if c.now - s.buckets[key].updated >= window as real {
        IdleBucketIsFull(s.buckets[key], limit, window, c.now);
      }
    }
  }

  lemma ServeStock(s: Limiter, key: string, limit: int, window: int, c: Call)
    requires ValidCall(c) && limit >= 1 && window >= 1 && InRange(s, key, limit, c.now)
    requires c.key == key ==> c.limit == limit && c.window == window
    ensures var rate := Rate(limit, window);
            var (s', d) := Serve(s, c);
            && InRange(s', key, limit, c.now)
            && Stock(s', key, limit, rate, c.now) + (if c.key == key && d.allowed then 1.0 else 0.0)
               == Stock(s, key, limit, rate, c.now)
  {
    var rate := Rate(limit, window);
    if c.key == key {
      RefillBounds(Lookup(s, c), limit, rate, c.now);
      assert Accrued(c.now, c.now, rate) == 0.0;
      assert Serve(s, c).0.buckets[key].updated == c.now;
    }
  }

  function OwnCountWithin(key: string, calls: seq<Call>, ds: seq<Decision>, from: real, to: real): nat
    requires |calls| == |ds|
  {
    if calls == [] then 0
    else (if calls[0].key == key && ds[0].allowed && from <= calls[0].now <= to then 1 else 0)
         + OwnCountWithin(key, calls[1..], ds[1..], from, to)
  }

  lemma {:induction false} NothingDecidedAfter(
      s: Limiter, key: string, calls: seq<Call>, ds: seq<Decision>, window: int, now: real, from: real, to: real)
    requires |calls| == |ds| && Monotone(now, calls) && now > to
    requires forall i :: 0 <= i < |calls| ==> ValidCall(calls[i])
    ensures OwnCountWithin(key, calls, ds, from, to) == 0
    decreases calls
  {
    if calls != [] {
      NothingDecidedAfter(s, key, calls[1..], ds[1..], window, calls[0].now, from, to);
    }
  }

  /** One call inside the interval: what it draws was in stock, accrued or was swept in. */
  lemma StepDraws(
      s: Limiter, key: string, limit: int, window: int, now: real, c: Call)
    requires ValidCall(c) && limit >= 1 && window >= 1 && InRange(s, key, limit, now) && now <= c.now
    requires c.key == key ==> c.limit == limit && c.window == window
    ensures var rate := Rate(limit, window);
            var early := c.now - s.lastSweep > SWEEP_INTERVAL && window > c.window * STALE_WINDOWS;
            && InRange(Step(s, c).0, key, limit, c.now)
            && (if c.key == key && Step(s, c).1.allowed then 1.0 else 0.0)
               + Stock(Step(s, c).0, key, limit, rate, c.now)
               <= Stock(s, key, limit, rate, now) + Accrued(now, c.now, rate) + (if early then limit as real else 0.0)
            && (if c.key == key && Step(s, c).1.allowed then 1.0 else 0.0)
               + Stock(Step(s, c).0, key, limit, rate, c.now) <= limit as real
  {
    StockAccrues(s, key, limit, Rate(limit, window), now, c.now);
    AccruedSign(now, c.now, Rate(limit, window));
    StockAccrues(s, key, limit, Rate(limit, window), c.now, c.now);
    SweepStock(s, key, limit, window, c);
    ServeStock(SweepIfDue(s, c), key, limit, window, c);
    hide Stock, Accrued, Rate, SweepIfDue, Serve;
  }

  /** The limit once more for every early sweep. */
  function SweptIn(limit: int, k: nat): real {
    limit as real * k as real
  }

  lemma SweptInNext(limit: int, k: nat)
    requires limit >= 1
    ensures SweptIn(limit, 0) == 0.0 && SweptIn(limit, k + 1) == SweptIn(limit, k) + limit as real
    ensures SweptIn(limit, k) >= 0.0
  {}

  lemma {:induction false} DrawnIsCovered(
      s: Limiter, key: string, limit: int, window: int, now: real, calls: seq<Call>, from: real, to: real)
    requires Configured(key, limit, window, calls) && Monotone(now, calls) && InRange(s, key, limit, now)
    requires from <= now <= to
    ensures OwnCountWithin(key, calls, Decisions(s, calls), from, to) as real
         <= Stock(s, key, limit, Rate(limit, window), now) + Accrued(now, to, Rate(limit, window))
          + SweptIn(limit, EarlySweeps(s, calls, window, from, to))
    decreases calls
  {
    hide Stock, Accrued, Rate, Step, InRange, SweptIn;
    var rate := Rate(limit, window);
    StockAccrues(s, key, limit, rate, now, to);
    AccruedSign(now, to, rate);
    SweptInNext(limit, 0);
    if calls != [] {
      var c := calls[0];
      var s' := Step(s, c).0;
      assert Decisions(s, calls)[1..] == Decisions(s', calls[1..]);
      SweptInNext(limit, EarlySweeps(s', calls[1..], window, from, to));
      if c.now > to {
        NothingDecidedAfter(s, key, calls[1..], Decisions(s, calls)[1..], window, c.now, from, to);
        SweptInNext(limit, EarlySweeps(s, calls, window, from, to));
      } else {
        StepDraws(s, key, limit, window, now, c);
        DrawnIsCovered(s', key, limit, window, c.now, calls[1..], from, to);
        AccruedSplits(now, c.now, to, rate);
      }
    }
  }

  /** Without any assumption on the sweeps, every interval admits at most the limit, what accrues
      over it, and the limit once more for every early sweep in it. */
  lemma {:induction false} SweptEnvelope(
      s: Limiter, key: string, limit: int, window: int, now: real, calls: seq<Call>, from: real, to: real)
    requires Configured(key, limit, window, calls) && Monotone(now, calls) && InRange(s, key, limit, now)
    requires from <= to
    ensures OwnCountWithin(key, calls, Decisions(s, calls), from, to) as real
         <= limit as real + Accrued(from, to, Rate(limit, window))
          + SweptIn(limit, EarlySweeps(s, calls, window, from, to))
    decreases calls
  {
    hide Stock, Accrued, Rate, Step, InRange, SweptIn;
    var rate := Rate(limit, window);
    AccruedSign(from, to, rate);
    SweptInNext(limit, 0);
    if calls != [] {
      var c := calls[0];
      var s' := Step(s, c).0;
      StepDraws(s, key, limit, window, now, c);
      assert Decisions(s, calls)[1..] == Decisions(s', calls[1..]);
      SweptInNext(limit, EarlySweeps(s', calls[1..], window, from, to));
      if c.now < from {
        SweptEnvelope(s', key, limit, window, c.now, calls[1..], from, to);
      } else if c.now <= to {
        DrawnIsCovered(s', key, limit, window, c.now, calls[1..], from, to);
        AccruedSign(from, c.now, rate);
        AccruedSplits(from, c.now, to, rate);
      } else {
        NothingDecidedAfter(s, key, calls[1..], Decisions(s, calls)[1..], window, c.now, from, to);
        SweptInNext(limit, EarlySweeps(s, calls, window, from, to));
      }
    }
  }

  /** Sweeps lie more than the sweep interval apart. */
  lemma {:induction false} EarlySweepsAreRare(
      s: Limiter, now: real, calls: seq<Call>, window: int, from: real, to: real)
    requires forall i :: 0 <= i < |calls| ==> ValidCall(calls[i])
    requires Monotone(now, calls) && s.lastSweep <= now && from <= to
    ensures var k := EarlySweeps(s, calls, window, from, to) as real;
            && k * SWEEP_INTERVAL <= to - from + SWEEP_INTERVAL
            && (k > 0.0 && s.lastSweep >= from ==> k * SWEEP_INTERVAL < to - s.lastSweep)
    decreases calls
  {
    if calls != [] {
      var c := calls[0];
      var s' := Step(s, c).0;
      assert s'.lastSweep == SweepIfDue(s, c).lastSweep;
      hide Step;
      EarlySweepsAreRare(s', c.now, calls[1..], window, from, to);
    }
  }

  /** From process start: the envelope of every key, and how much its early sweeps can add. */
  lemma UnshelteredEnvelope(
      start: real, calls: seq<Call>, key: string, limit: int, window: int, from: real, to: real)
    requires Configured(key, limit, window, calls) && Monotone(start, calls) && from <= to
    ensures var k := EarlySweeps(Started(start), calls, window, from, to);
            && OwnCountWithin(key, calls, Decisions(Started(start), calls), from, to) as real
               <= limit as real + Accrued(from, to, Rate(limit, window)) + limit as real * k as real
            && k as real * SWEEP_INTERVAL <= to - from + SWEEP_INTERVAL
            && (Sheltered(window, calls) ==> k == 0)
  {
    SweptEnvelope(Started(start), key, limit, window, start, calls, from, to);
    EarlySweepsAreRare(Started(start), start, calls, window, from, to);
    if Sheltered(window, calls) {
      NoEarlySweeps(Started(start), calls, window, from, to);
    }
  }

  lemma {:induction false} NoEarlySweeps(s: Limiter, calls: seq<Call>, window: int, from: real, to: real)
    requires forall i :: 0 <= i < |calls| ==> ValidCall(calls[i])
    requires Sheltered(window, calls)
    ensures EarlySweeps(s, calls, window, from, to) == 0
    decreases calls
  {
    if calls != [] {
      NoEarlySweeps(Step(s, calls[0]).0, calls[1..], window, from, to);
    }
  }

  /** At most the limit and what accrues over the interval is admitted in any interval. */
  lemma RateEnvelope(
      start: real, calls: seq<Call>, key: string, limit: int, window: int, from: real, to: real)
    requires Configured(key, limit, window, calls) && Sheltered(window, calls) && Monotone(start, calls)
    requires from <= to
    ensures |OwnGrants(key, calls, Decisions(Started(start), calls))| == |Own(key, calls)|
    ensures CountWithin(Own(key, calls), OwnGrants(key, calls, Decisions(Started(start), calls)), from, to) as real
         <= limit as real + Accrued(from, to, Rate(limit, window))
  {
    hide Accrued, Rate;
    ChecksSeeOneBucket(start, calls, key, limit, window);
    OwnOrdered(key, start, start, calls);
    BucketEnvelope(Bucket(limit as real, start), limit, Rate(limit, window), Own(key, calls), from, to);
  }

  ghost predicate InRange(s: Limiter, key: string, limit: int, now: real) {
    key in s.buckets ==> 0.0 <= s.buckets[key].tokens <= limit as real && s.buckets[key].updated <= now
  }

  lemma {:induction false} RunKeepsRange(
      s: Limiter, key: string, limit: int, window: int, now: real, calls: seq<Call>)
    requires Configured(key, limit, window, calls) && Monotone(now, calls) && InRange(s, key, limit, now)
    ensures InRange(StateAfter(s, calls), key, limit, LastTime(now, calls))
    decreases calls
  {
    if calls != [] {
      var c := calls[0];
      var due := SweepIfDue(s, c);
      if c.key == key {
        RefillBounds(Lookup(due, c), limit, Rate(limit, window), c.now);
      }
      assert InRange(Step(s, c).0, key, limit, c.now);
      assert LastTime(now, calls) == LastTime(c.now, calls[1..]);
      RunKeepsRange(Step(s, c).0, key, limit, window, c.now, calls[1..]);
    }
  }

  /** Tokens never leave the range from nothing to the limit, whatever is checked or swept. */
  lemma TokensWithinLimit(start: real, calls: seq<Call>, key: string, limit: int, window: int)
    requires Configured(key, limit, window, calls) && Monotone(start, calls)
    ensures var s := StateAfter(Started(start), calls);
            key in s.buckets ==> 0.0 <= s.buckets[key].tokens <= limit as real
  {
    RunKeepsRange(Started(start), key, limit, window, start, calls);
  }

  /** An early sweep does break the plain envelope: for any two windows further apart than four
      to one there is a run that admits more than the limit and what accrues. */
  lemma EarlySweepBreaksEnvelope(long: int, short: int)
    requires long > short * STALE_WINDOWS && short >= 1
    ensures
      var calls := ForgettingRun(long, short);
      var (from, to) := (calls[0].now, calls[2].now);
      && Monotone(0.0, calls) && Configured("a", 1, long, calls) && from <= to
      && OwnCountWithin("a", calls, Decisions(Started(0.0), calls), from, to) as real
         > 1.0 + Accrued(from, to, Rate(1, long))
  {
    ForgettingRunIsObserved({long, short}, long, short);
    var calls := ForgettingRun(long, short);
    var ds := Decisions(Started(0.0), calls);
    AccruedOverWindow(calls[0].now, calls[2].now, 1, long);
    assert Step(Started(0.0), calls[0]).1.allowed && ds[0].allowed;
    hide Step, Decisions, Accrued, Rate;
    assert calls[1..][0] == calls[1] && ds[1..][0] == ds[1];
    assert calls[1..][1..] == [calls[2]] && ds[1..][1..] == [ds[2]];
    assert OwnCountWithin("a", [calls[2]], [ds[2]], calls[0].now, calls[2].now) == 1;
  }

  predicate WithinEnvelope(start: real, calls: seq<Call>, key: string, limit: int, window: int, from: real, to: real)
    requires limit >= 1 && window >= 1
    requires forall i :: 0 <= i < |calls| ==> ValidCall(calls[i])
  {
    OwnCountWithin(key, calls, Decisions(Started(start), calls), from, to) as real
    <= limit as real + Accrued(from, to, Rate(limit, window))
  }

  predicate DrawnRun(
      windows: set<int>, start: real, calls: seq<Call>, key: string, limit: int, window: int, from: real, to: real)
  {
    && Monotone(start, calls) && Drawn(windows, calls) && from <= to
    && window in windows && Configured(key, limit, window, calls)
  }

  ghost predicate KeepsEnvelope(windows: set<int>) {
    forall start: real, calls, key, limit, window, from: real, to: real ::
      DrawnRun(windows, start, calls, key, limit, window, from, to) ==>
        WithinEnvelope(start, calls, key, limit, window, from, to)
  }

  /** Every run on the windows keeps every key within its plain envelope in every interval, if
      and only if no window exceeds four times another. */
  lemma EnvelopeIff(windows: set<int>)
    requires forall w :: w in windows ==> w >= 1
    ensures KeepsEnvelope(windows) <==> WindowsWithin(windows)
  {
    if WindowsWithin(windows) {
      forall start: real, calls, key, limit, window, from: real, to: real
        | DrawnRun(windows, start, calls, key, limit, window, from, to)
        ensures WithinEnvelope(start, calls, key, limit, window, from, to)
      {
        UnshelteredEnvelope(start, calls, key, limit, window, from, to);
      }
    } else {
      var long, short :| long in windows && short in windows && long > short * STALE_WINDOWS;
      var calls := ForgettingRun(long, short);
      ForgettingRunIsObserved(windows, long, short);
      EarlySweepBreaksEnvelope(long, short);
      assert DrawnRun(windows, 0.0, calls, "a", 1, long, calls[0].now, calls[2].now);
      assert !WithinEnvelope(0.0, calls, "a", 1, long, calls[0].now, calls[2].now);
    }
  }

  // ---------------------------------------------------------------------------------------
  // The retry hint
  // ---------------------------------------------------------------------------------------

  predicate AllDenied(grants: seq<bool>) {
    grants == [] || (!grants[0] && AllDenied(grants[1..]))
  }

  function Deficit(denied: Bucket, rate: real): (seconds: real)
    requires rate > 0.0
  {
    (1.0 - denied.tokens) / rate
  }

  lemma DeficitAccrues(denied: Bucket, rate: real, at: real)
    requires rate > 0.0
    ensures at - denied.updated >= Deficit(denied, rate)
       <==> denied.tokens + Accrued(denied.updated, at, rate) >= 1.0
  {
    var waited, deficit := at - denied.updated, Deficit(denied, rate);
    assert deficit * rate == 1.0 - denied.tokens;
    assert waited * rate - deficit * rate == (waited - deficit) * rate;
  }

  /** Since a denial left the bucket `denied`, the key's bucket has only gained, or a sweep has
      taken it; and if the key is sheltered, not before a whole window had passed. */
  ghost predicate Waits(
      s: Limiter, key: string, limit: int, window: int, denied: Bucket, now: real, sheltered: bool)
    requires limit >= 1 && window >= 1
  {
    && 0.0 <= denied.tokens < 1.0 && denied.updated <= now
    && if key in s.buckets then
         var b := s.buckets[key];
         && denied.updated <= b.updated <= now
         && b.tokens == denied.tokens + Accrued(denied.updated, b.updated, Rate(limit, window)) < 1.0
       else sheltered ==> now - denied.updated >= window as real
  }

  lemma SweepKeepsWaits(
      s: Limiter, key: string, limit: int, window: int, denied: Bucket, now: real, sheltered: bool, c: Call)
    requires limit >= 1 && window >= 1 && Waits(s, key, limit, window, denied, now, sheltered)
    requires now <= c.now && (sheltered ==> window <= c.window * STALE_WINDOWS)
    ensures Waits(SweepIfDue(s, c), key, limit, window, denied, c.now, sheltered)
  {
    hide Accrued, Rate;
  }

  /** A check is admitted when a token has accrued since the denial, or a sweep has taken the bucket. */
  lemma ServeWaits(s: Limiter, c: Call, denied: Bucket, sheltered: bool)
    requires ValidCall(c) && Waits(s, c.key, c.limit, c.window, denied, c.now, sheltered)
    ensures var accrued := denied.tokens + Accrued(denied.updated, c.now, Rate(c.limit, c.window)) >= 1.0;
            var (s', d) := Serve(s, c);
            && (d.allowed <==> accrued || c.key !in s.buckets)
            && (sheltered && c.key !in s.buckets ==> accrued)
            && (!d.allowed ==> Waits(s', c.key, c.limit, c.window, denied, c.now, sheltered))
  {
    var rate := Rate(c.limit, c.window);
    if c.key in s.buckets {
      AccruedSplits(denied.updated, s.buckets[c.key].updated, c.now, rate);
    } else {
      RefillOfFull(c.limit, rate, c.now);
      if sheltered {
        AccruedOverWindow(denied.updated, c.now, c.limit, c.window);
      }
    }
    hide Accrued, Rate;
  }

  /** Denied checks leave the bucket with what has accrued since the first denial: refills compose. */
  lemma {:induction false} DeniedChecksOnlyWait(
      s: Limiter, key: string, limit: int, window: int, denied: Bucket, now: real, sheltered: bool, calls: seq<Call>)
    requires Configured(key, limit, window, calls) && Monotone(now, calls)
    requires Waits(s, key, limit, window, denied, now, sheltered) && (sheltered ==> Sheltered(window, calls))
    requires AllDenied(OwnGrants(key, calls, Decisions(s, calls)))
    ensures Waits(StateAfter(s, calls), key, limit, window, denied, LastTime(now, calls), sheltered)
    decreases calls
  {
    if calls != [] {
      var c := calls[0];
      var due, s' := SweepIfDue(s, c), Step(s, c).0;
      SweepKeepsWaits(s, key, limit, window, denied, now, sheltered, c);
      if c.key == key {
        ServeWaits(due, c, denied, sheltered);
      }
      assert Waits(s', key, limit, window, denied, c.now, sheltered);
      assert Decisions(s, calls)[1..] == Decisions(s', calls[1..]);
      assert LastTime(now, calls) == LastTime(c.now, calls[1..]);
      hide Waits, Step;
      DeniedChecksOnlyWait(s', key, limit, window, denied, c.now, sheltered, calls[1..]);
    }
  }

  lemma {:induction false} LaterThanAll(start: real, calls: seq<Call>, again: Call)
    requires Monotone(start, calls + [again])
    ensures Monotone(start, calls) && start <= LastTime(start, calls) <= again.now
    decreases calls
  {
    if calls == [] {
      assert calls + [again] == [again];
    } else {
      assert (calls + [again])[1..] == calls[1..] + [again];
      LaterThanAll(calls[0].now, calls[1..], again);
    }
  }

  lemma DeniedWaits(s: Limiter, c: Call, sheltered: bool)
    requires ValidCall(c) && InRange(s, c.key, c.limit, c.now) && !Step(s, c).1.allowed
    ensures c.key in Step(s, c).0.buckets
    ensures var (s', denial) := Step(s, c);
            var b := s'.buckets[c.key];
            && b.updated == c.now && denial.retryAfter == RetryAfter(b.tokens, Rate(c.limit, c.window))
            && Waits(s', c.key, c.limit, c.window, b, c.now, sheltered)
  {
    RefillBounds(Lookup(SweepIfDue(s, c), c), c.limit, Rate(c.limit, c.window), c.now);
    assert Accrued(c.now, c.now, Rate(c.limit, c.window)) == 0.0;
    hide RetryAfter, Rate;
  }

  lemma HintBounds(denied: Bucket, rate: real)
    requires rate > 0.0 && denied.tokens < 1.0
    ensures Deficit(denied, rate) <= RetryAfter(denied.tokens, rate) as real + 1.0
    ensures Deficit(denied, rate) >= 1.0 ==> RetryAfter(denied.tokens, rate) as real <= Deficit(denied, rate)
  {}

  /** On the limiter: after a denial at `c`, and whatever calls `calls` on any keys of which
      those on this key were denied too, the check `again` is admitted once its deficit has
      accrued or a sweep has taken its bucket, and not otherwise. So a second after the hint it
      always is; and for a sheltered key, a sweep takes the bucket only when the deficit has
      accrued, so that before the hint it never is, if at least a second was owed. */
  lemma DeniedThenAdmittedIff(s: Limiter, c: Call, calls: seq<Call>, again: Call)
    requires ValidCall(c) && InRange(s, c.key, c.limit, c.now) && !Step(s, c).1.allowed
    requires Configured(c.key, c.limit, c.window, calls + [again]) && again.key == c.key
    requires Monotone(c.now, calls + [again])
    requires ValidCall(again) && forall i :: 0 <= i < |calls| ==> ValidCall(calls[i])
    requires AllDenied(OwnGrants(c.key, calls, Decisions(Step(s, c).0, calls)))
    ensures c.key in Step(s, c).0.buckets
    ensures
      var (s', denial) := Step(s, c);
      var deficit := Deficit(s'.buckets[c.key], Rate(c.limit, c.window));
      var swept := c.key !in SweepIfDue(StateAfter(s', calls), again).buckets;
      var decision := Step(StateAfter(s', calls), again).1;
      && (decision.allowed <==> again.now - c.now >= deficit || swept)
      && (again.now >= c.now + denial.retryAfter as real + 1.0 ==> decision.allowed)
      && (Sheltered(c.window, calls + [again]) ==>
            && (swept ==> again.now - c.now >= deficit)
            && (deficit >= 1.0 && again.now < c.now + denial.retryAfter as real ==> !decision.allowed))
  {
    var sheltered := Sheltered(c.window, calls + [again]);
    var rate, s' := Rate(c.limit, c.window), Step(s, c).0;
    DeniedWaits(s, c, sheltered);
    var b := s'.buckets[c.key];
    LaterThanAll(c.now, calls, again);
    assert forall i :: 0 <= i < |calls| ==> calls[i] == (calls + [again])[i];
    assert again == (calls + [again])[|calls|];
    var last := StateAfter(s', calls);
    assert Step(last, again).1 == Serve(SweepIfDue(last, again), again).1;
    hide Step, Serve, SweepIfDue, Monotone, Rate, RetryAfter, Deficit, Accrued, StateAfter;
    DeniedChecksOnlyWait(s', c.key, c.limit, c.window, b, c.now, sheltered, calls);
    SweepKeepsWaits(last, c.key, c.limit, c.window, b, LastTime(c.now, calls), sheltered, again);
    ServeWaits(SweepIfDue(last, again), again, b, sheltered);
    hide Waits;
    DeficitAccrues(b, rate, again.now);
    HintBounds(b, rate);
  }

  lemma HintCoversIff(denied: Bucket, rate: real)
    requires rate > 0.0 && denied.tokens < 1.0
    ensures RetryAfter(denied.tokens, rate) as real >= Deficit(denied, rate)
       <==> Deficit(denied, rate) <= 1.0 || Deficit(denied, rate) == Deficit(denied, rate).Floor as real
  {
    assert Deficit(denied, rate) * rate == 1.0 - denied.tokens;
  }

  lemma OneCall(s: Limiter, c: Call, again: Call)
    requires ValidCall(c) && again == c.(now := again.now) && c.now <= again.now
    ensures Configured(c.key, c.limit, c.window, [] + [again]) && Sheltered(c.window, [] + [again])
    ensures Monotone(c.now, [] + [again]) && StateAfter(s, []) == s && AllDenied(OwnGrants(c.key, [], Decisions(s, [])))
  {
    assert [] + [again] == [again];
  }

  /** Repeating a denied check after exactly the wait that the denial names succeeds when the
      deficit takes at most a second or a whole number of them; every other hint is rounded
      down too far. */
  lemma RetryHintSufficesIff(s: Limiter, c: Call)
    requires ValidCall(c) && InRange(s, c.key, c.limit, c.now) && !Step(s, c).1.allowed
    ensures c.key in Step(s, c).0.buckets
    ensures
      var (s', denial) := Step(s, c);
      var deficit := Deficit(s'.buckets[c.key], Rate(c.limit, c.window));
      Step(s', c.(now := c.now + denial.retryAfter as real)).1.allowed <==>
        deficit <= 1.0 || deficit == deficit.Floor as real
  {
    DeniedWaits(s, c, true);
    hide Waits, Step, Rate, Deficit, InRange;
    var again := c.(now := c.now + Step(s, c).1.retryAfter as real);
    HintCoversIff(Step(s, c).0.buckets[c.key], Rate(c.limit, c.window));
    OneCall(Step(s, c).0, c, again);
    hide RetryAfter, Configured, Sheltered, Monotone, StateAfter, AllDenied;
    DeniedThenAdmittedIff(s, c, [], again);
  }

  /** One check a minute: denied half a second later with a hint of 59 seconds, and denied
      again 59 seconds after that. */
  lemma RetryHintFallsShort()
    ensures
      var first, second := Call("a", 1, 60, 0.0), Call("a", 1, 60, 0.5);
      var (s, denial) := Step(Step(Started(0.0), first).0, second);
      && Step(Started(0.0), first).1.allowed
      && denial == Decision(false, 0, 59)
      && !Step(s, Call("a", 1, 60, 59.5)).1.allowed
  {
    var rate := Rate(1, 60);
    var s1 := Step(Started(0.0), Call("a", 1, 60, 0.0)).0;
    assert s1 == Limiter(map["a" := Bucket(0.0, 0.0)], 0.0);
    var s2 := Step(s1, Call("a", 1, 60, 0.5)).0;
    assert rate * 60.0 == 1.0;
    assert Accrued(0.0, 0.5, rate) == 0.5 * rate;
    var tokens := 0.5 * rate;
    assert s2 == Limiter(map["a" := Bucket(tokens, 0.5)], 0.0);
    assert (1.0 - tokens) / rate == 59.5 by {
      assert 59.5 * rate == 1.0 - tokens;
    }
    assert (59.5).Floor == 59;
    assert Accrued(0.5, 59.5, rate) == 59.0 * rate;
  }

  // ---------------------------------------------------------------------------------------
  // The remaining count
  // ---------------------------------------------------------------------------------------

  function Again(c: Call, k: nat): (calls: seq<Call>)
    ensures |calls| == k && forall i :: 0 <= i < k ==> calls[i] == c
  {
    if k == 0 then [] else [c] + Again(c, k - 1)
  }

  lemma {:induction false} TokensAdmitAtOnce(s: Limiter, c: Call, tokens: real, k: nat)
    requires ValidCall(c) && c.key in s.buckets && s.buckets[c.key] == Bucket(tokens, c.now)
    requires 0.0 <= tokens <= c.limit as real && c.now - s.lastSweep <= SWEEP_INTERVAL
    ensures forall i :: 0 <= i < k ==> (Decisions(s, Again(c, k))[i].allowed <==> i < tokens.Floor)
    decreases k
  {
    if k > 0 {
      var (s', d) := Step(s, c);
      var left := if tokens >= 1.0 then tokens - 1.0 else tokens;
      assert Accrued(c.now, c.now, Rate(c.limit, c.window)) == 0.0;
      assert s'.buckets[c.key] == Bucket(left, c.now);
      TokensAdmitAtOnce(s', c, left, k - 1);
      assert Again(c, k)[1..] == Again(c, k - 1);
      assert Decisions(s, Again(c, k)) == [d] + Decisions(s', Again(c, k - 1));
    }
  }

  /** The remaining count of an admission is exact: repeated at the same instant, so many more
      checks are admitted and no others. */
  lemma RemainingIsExact(s: Limiter, c: Call, k: nat)
    requires ValidCall(c) && InRange(s, c.key, c.limit, c.now) && Step(s, c).1.allowed
    ensures forall i :: 0 <= i < k ==>
      (Decisions(Step(s, c).0, Again(c, k))[i].allowed <==> i < Step(s, c).1.remaining)
  {
    var due := SweepIfDue(s, c);
    RefillBounds(Lookup(due, c), c.limit, Rate(c.limit, c.window), c.now);
    var tokens := Step(s, c).0.buckets[c.key].tokens;
    assert Step(s, c).1.remaining == tokens.Floor;
    TokensAdmitAtOnce(Step(s, c).0, c, tokens, k);
  }
}
