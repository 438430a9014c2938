/** The failed-login counter and the timed lockout of one account. Time is in microseconds. */
module Lockout {
  import opened Options

  const MAX_FAILED_LOGINS := 5
  const LOCKOUT := 15 * 60 * 1_000_000

  type Time = int

  datatype Account = Account(failed: nat, lockedUntil: Option<Time>)

  /** An attempt; `valid` says that the account is active and the password is right. */
  datatype Attempt = Attempt(valid: bool, now: Time)

  /** `Unknown` and `Failed` are the same 401 to the caller; `Locked` is the 429. */
  datatype Outcome = Unknown | Locked | Failed | Succeeded

  predicate IsLocked(a: Account, now: Time) {
    a.lockedUntil.Some? && a.lockedUntil.value > now
  }

  function Try(a: Account, t: Attempt): (Account, Outcome) {
    if IsLocked(a, t.now) then (a, Locked)
    else if t.valid then (Account(0, None), Succeeded)
    else if a.failed + 1 >= MAX_FAILED_LOGINS then (Account(0, Some(t.now + LOCKOUT)), Failed)
    else (a.(failed := a.failed + 1), Failed)
  }

  class User {
    var failedLogins: nat
    var lockedUntil: Option<Time>
    var active: bool

    ghost function View(): Account
      reads this
    {
      Account(failedLogins, lockedUntil)
    }

    constructor ()
      ensures View() == Account(0, None) && active
    {
      failedLogins := 0;
      lockedUntil := None;
      active := true;
    }
  }

  method Login(user: User?, verified: bool, now: Time) returns (outcome: Outcome)
    modifies user
    ensures user == null <==> outcome == Unknown
    ensures user != null ==>
      var locked := old(user.lockedUntil).Some? && old(user.lockedUntil).value > now;
      && (outcome == Locked <==> locked)
      && (outcome == Succeeded <==> !locked && old(user.active) && verified)
    ensures outcome == Succeeded ==> user.failedLogins == 0 && user.lockedUntil == None
    ensures outcome == Failed ==>
      if old(user.failedLogins) + 1 >= 5
      then user.failedLogins == 0 && user.lockedUntil == Some(now + 15 * 60 * 1_000_000)
      else user.failedLogins == old(user.failedLogins) + 1 && user.lockedUntil == old(user.lockedUntil)
    ensures outcome == Locked ==>
      user.failedLogins == old(user.failedLogins) && user.lockedUntil == old(user.lockedUntil)
    ensures user != null ==>
      (user.View(), outcome) == Try(old(user.View()), Attempt(old(user.active) && verified, now))
    ensures user != null ==> user.active == old(user.active)
  {
    if user == null {
      return Unknown;
    }
    var lockedUntil := user.lockedUntil;
    if lockedUntil.Some? && lockedUntil.value > now {
      return Locked;
    }
    if !user.active || !verified {
      user.failedLogins := user.failedLogins + 1;
      if user.failedLogins >= MAX_FAILED_LOGINS {
        user.lockedUntil := Some(now + LOCKOUT);
        user.failedLogins := 0;
      }
      return Failed;
    }
    user.failedLogins := 0;
    user.lockedUntil := None;
    return Succeeded;
  }

  // ---------------------------------------------------------------------------------------
  // How many guesses an interval allows
  // ---------------------------------------------------------------------------------------

  predicate Ordered(start: Time, ts: seq<Attempt>)
    decreases ts
  {
    ts == [] || (start <= ts[0].now && Ordered(ts[0].now, ts[1..]))
  }

  /** Failed attempts in the interval that got as far as the password. */
  function Guesses(a: Account, ts: seq<Attempt>, from: Time, to: Time): nat
    decreases ts
  {
    if ts == [] then 0
    else
      var (a', outcome) := Try(a, ts[0]);
      (if outcome.Failed? && from <= ts[0].now <= to then 1 else 0) + Guesses(a', ts[1..], from, to)
  }

  predicate NoSuccessWithin(a: Account, ts: seq<Attempt>, from: Time, to: Time)
    decreases ts
  {
    ts == [] ||
    var (a', outcome) := Try(a, ts[0]);
    (outcome.Succeeded? ==> !(from <= ts[0].now <= to)) && NoSuccessWithin(a', ts[1..], from, to)
  }

  /** What an account still allows from `now` to the end of the interval: the rest of the
      current batch, and a batch for every whole lockout period that fits. */
  function Allowance(a: Account, now: Time, to: Time): int {
    var start := if IsLocked(a, now) then a.lockedUntil.value else now;
    if start > to then 0
    else MAX_FAILED_LOGINS - a.failed + MAX_FAILED_LOGINS * ((to - start) / LOCKOUT)
  }

  predicate Sound(a: Account, now: Time) {
    a.failed < MAX_FAILED_LOGINS && (IsLocked(a, now) ==> a.failed == 0)
  }

  lemma LaterAllowsLess(a: Account, now: Time, later: Time, to: Time)
    requires Sound(a, now) && now <= later <= to
    ensures 0 <= Allowance(a, later, to) <= Allowance(a, now, to)
  {
    var start := if IsLocked(a, now) then a.lockedUntil.value else now;
    var start' := if IsLocked(a, later) then a.lockedUntil.value else later;
    assert start <= start';
    if start' <= to {
      assert (to - start') / LOCKOUT <= (to - start) / LOCKOUT;
    }
  }

  lemma GuessUsesAllowance(a: Account, t: Attempt, to: Time)
    requires Sound(a, t.now) && !t.valid && !IsLocked(a, t.now) && t.now <= to
    ensures Sound(Try(a, t).0, t.now)
    ensures Allowance(Try(a, t).0, t.now, to) + 1 <= Allowance(a, t.now, to)
  {
    if t.now + LOCKOUT <= to {
      assert (to - (t.now + LOCKOUT)) / LOCKOUT == (to - t.now) / LOCKOUT - 1;
    }
  }

  lemma {:induction false} NoGuessesAfter(a: Account, ts: seq<Attempt>, from: Time, to: Time)
    requires ts != [] && ts[0].now > to && Ordered(ts[0].now, ts[1..])
    ensures Guesses(a, ts, from, to) == 0
    decreases ts
  {
    if |ts| > 1 {
      NoGuessesAfter(Try(a, ts[0]).0, ts[1..], from, to);
    }
  }

  lemma {:induction false} GuessesWithinAllowance(a: Account, now: Time, ts: seq<Attempt>, from: Time, to: Time)
    requires Sound(a, now) && from <= now <= to && Ordered(now, ts) && NoSuccessWithin(a, ts, from, to)
    ensures Guesses(a, ts, from, to) <= Allowance(a, now, to)
    decreases ts
  {
    if ts == [] {
      LaterAllowsLess(a, now, now, to);
    } else if ts[0].now > to {
      NoGuessesAfter(a, ts, from, to);
      LaterAllowsLess(a, now, now, to);
    } else {
      var t := ts[0];
      LaterAllowsLess(a, now, t.now, to);
      if !IsLocked(a, t.now) {
        GuessUsesAllowance(a, t, to);
      }
      GuessesWithinAllowance(Try(a, t).0, t.now, ts[1..], from, to);
    }
  }

  /** In any interval without a successful login, at most one batch of five guesses per
      lockout period that fits into it, and one more. */
  lemma {:induction false} LockoutBound(a: Account, now: Time, ts: seq<Attempt>, from: Time, to: Time)
    requires Sound(a, now) && from <= to && Ordered(now, ts) && NoSuccessWithin(a, ts, from, to)
    ensures Guesses(a, ts, from, to) <= MAX_FAILED_LOGINS * ((to - from) / LOCKOUT + 1)
    decreases ts
  {
    if ts != [] {
      var t := ts[0];
      if t.now < from {
        LockoutBound(Try(a, t).0, t.now, ts[1..], from, to);
      } else if t.now <= to {
        GuessesWithinAllowance(a, t.now, ts, from, to);
        assert (to - t.now) / LOCKOUT <= (to - from) / LOCKOUT;
      } else {
        NoGuessesAfter(a, ts, from, to);
      }
    }
  }

  function Burst(guess: Attempt, n: nat): seq<Attempt> {
    if n == 0 then [] else [guess] + Burst(guess, n - 1)
  }

  /** Five wrong guesses at the start, and five more as soon as each lockout ends. */
  function Bursts(start: Time, periods: nat): seq<Attempt>
    decreases periods
  {
    Burst(Attempt(false, start), MAX_FAILED_LOGINS)
    + if periods == 0 then [] else Bursts(start + LOCKOUT, periods - 1)
  }

  lemma {:induction false} BurstLocks(
      a: Account, guess: Attempt, n: nat, rest: seq<Attempt>, from: Time, to: Time)
    requires n > 0 && a.failed + n == MAX_FAILED_LOGINS && !IsLocked(a, guess.now)
    requires !guess.valid && from <= guess.now <= to && Ordered(guess.now, rest)
    ensures var ts := Burst(guess, n) + rest;
            var locked := Account(0, Some(guess.now + LOCKOUT));
            && Ordered(guess.now, ts)
            && Guesses(a, ts, from, to) == n + Guesses(locked, rest, from, to)
            && (NoSuccessWithin(locked, rest, from, to) ==> NoSuccessWithin(a, ts, from, to))
    decreases n
  {
    assert (Burst(guess, n) + rest)[1..] == Burst(guess, n - 1) + rest;
    if n == 1 {
      assert Burst(guess, 0) + rest == rest;
    } else {
      BurstLocks(Try(a, guess).0, guess, n - 1, rest, from, to);
    }
  }

  /** The bound is attained for every number of periods. */
  lemma {:induction false} LockoutBoundIsTight(a: Account, start: Time, periods: nat, from: Time, to: Time)
    requires a.failed == 0 && !IsLocked(a, start) && from <= start && to == start + periods * LOCKOUT
    ensures Ordered(start, Bursts(start, periods)) && NoSuccessWithin(a, Bursts(start, periods), from, to)
    ensures Guesses(a, Bursts(start, periods), from, to) == MAX_FAILED_LOGINS * (periods + 1)
    decreases periods
  {
    var rest := if periods == 0 then [] else Bursts(start + LOCKOUT, periods - 1);
    if periods > 0 {
      LockoutBoundIsTight(Account(0, Some(start + LOCKOUT)), start + LOCKOUT, periods - 1, from, to);
      assert Ordered(start, rest);
    }
    BurstLocks(a, Attempt(false, start), MAX_FAILED_LOGINS, rest, from, to);
  }

  /** A locked account lets nobody in, not even with the right password, until the lockout
      period after the fifth failure is over. */
  lemma LockedUntilPeriodEnds(a: Account, fifth: Attempt, t: Attempt)
    requires a.failed == MAX_FAILED_LOGINS - 1 && !IsLocked(a, fifth.now) && !fifth.valid
    requires fifth.now <= t.now
    ensures Try(Try(a, fifth).0, t).1.Locked? <==> t.now < fifth.now + LOCKOUT
    ensures Try(Try(a, fifth).0, t).1.Locked? ==> Try(Try(a, fifth).0, t).0 == Try(a, fifth).0
  {}

  // ---------------------------------------------------------------------------------------
  // What a success does
  // ---------------------------------------------------------------------------------------

  function Outcomes(a: Account, ts: seq<Attempt>): (outcomes: seq<Outcome>)
    ensures |outcomes| == |ts|
    decreases ts
  {
    if ts == [] then [] else [Try(a, ts[0]).1] + Outcomes(Try(a, ts[0]).0, ts[1..])
  }

  function AfterAll(a: Account, ts: seq<Attempt>): Account
    decreases ts
  {
    if ts == [] then a else AfterAll(Try(a, ts[0]).0, ts[1..])
  }

  /** An attempt is refused exactly while a lock runs; a valid one succeeds exactly when none does. */
  lemma ValidSucceedsIff(a: Account, t: Attempt)
    ensures Try(a, t).1.Locked? <==> a.lockedUntil.Some? && a.lockedUntil.value > t.now
    ensures Try(a, t).1.Succeeded? <==> t.valid && !(a.lockedUntil.Some? && a.lockedUntil.value > t.now)
  {}

  predicate AllFail(ts: seq<Attempt>) {
    forall i :: 0 <= i < |ts| ==> !ts[i].valid
  }

  lemma {:induction false} FewFailuresCount(failed: nat, fails: seq<Attempt>)
    requires AllFail(fails) && failed + |fails| <= 4
    ensures AfterAll(Account(failed, None), fails) == Account(failed + |fails|, None)
    ensures forall i :: 0 <= i < |fails| ==> Outcomes(Account(failed, None), fails)[i].Failed?
    decreases fails
  {
    if fails != [] {
      FewFailuresCount(failed + 1, fails[1..]);
    }
  }

  lemma {:induction false} OutcomesAppend(a: Account, ts: seq<Attempt>, us: seq<Attempt>)
    ensures Outcomes(a, ts + us) == Outcomes(a, ts) + Outcomes(AfterAll(a, ts), us)
    ensures AfterAll(a, ts + us) == AfterAll(AfterAll(a, ts), us)
    decreases ts
  {
    if ts == [] {
      assert ts + us == us;
    } else {
      OutcomesAppend(Try(a, ts[0]).0, ts[1..], us);
      assert (ts + us)[1..] == ts[1..] + us;
    }
  }

  /** A success clears the account, whatever was held against it: up to four failures behind it
      are answered as failures only, a valid attempt behind those succeeds, and of the failures
      behind it only the fifth locks. */
  lemma SuccessClears(a: Account, success: Attempt, fails: seq<Attempt>, last: Attempt, later: Attempt)
    requires Try(a, success).1.Succeeded? && AllFail(fails) && |fails| <= 4
    ensures var ts := [success] + fails + [last];
            && Outcomes(a, ts)[0].Succeeded?
            && (forall i :: 1 <= i <= |fails| ==> Outcomes(a, ts)[i].Failed?)
            && Outcomes(a, ts)[|fails| + 1] == (if last.valid then Succeeded else Failed)
            && (Try(AfterAll(a, ts), later).1.Locked? <==>
                  !last.valid && |fails| == 4 && later.now < last.now + 15 * 60 * 1_000_000)
  {
    var ts := [success] + fails + [last];
    var cleared := Account(0, None);
    assert [success][1..] == [] && [last][1..] == [];
    assert Try(a, success) == (cleared, Succeeded);
    assert AfterAll(a, [success]) == AfterAll(cleared, []) == cleared;
    assert Outcomes(a, [success]) == [Succeeded];
    OutcomesAppend(a, [success], fails);
    OutcomesAppend(a, [success] + fails, [last]);
    FewFailuresCount(0, fails);
    var counted := Account(|fails|, None);
    assert AfterAll(a, [success] + fails) == counted;
    assert AfterAll(a, ts) == AfterAll(counted, [last]) == AfterAll(Try(counted, last).0, []);
    assert Outcomes(counted, [last]) == [Try(counted, last).1];
  }
}
