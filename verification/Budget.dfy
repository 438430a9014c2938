/** The budget of a run, checked before a call of the model and charged after it, with
    several calls in flight at once.
 */
module Budget {

  class RunBudget {
    var tokensUsed: nat
    var llmCalls: nat
    const maxTokens: nat
    const maxCalls: nat
    const maxSeconds: real
    const started: real

    ghost function View(inFlight: nat): Usage
      reads this
    {
      Usage(tokensUsed, llmCalls, inFlight)
    }

    constructor (maxTokens: nat, maxCalls: nat, maxSeconds: real, now: real)
      ensures tokensUsed == 0 && llmCalls == 0 && started == now
      ensures this.maxTokens == maxTokens && this.maxCalls == maxCalls && this.maxSeconds == maxSeconds
    {
      tokensUsed, llmCalls := 0, 0;
      this.maxTokens, this.maxCalls, this.maxSeconds, started := maxTokens, maxCalls, maxSeconds, now;
    }

    predicate Exhausted(now: real)
      reads this
    {
      tokensUsed >= maxTokens || llmCalls >= maxCalls || now - started >= maxSeconds
    }

    method Charge(tokens: nat, ghost inFlight: nat)
      requires inFlight > 0
      modifies this
      ensures View(inFlight - 1) == Next(old(View(inFlight)), Finish(tokens))
      ensures tokensUsed == old(tokensUsed) + tokens && llmCalls == old(llmCalls) + 1
    {
      tokensUsed := tokensUsed + tokens;
      llmCalls := llmCalls + 1;
    }

    /** The check in front of every call; a refused call never starts. */
    method Admit(now: real, ghost inFlight: nat) returns (ok: bool)
      ensures ok <==> tokensUsed < maxTokens && llmCalls < maxCalls && now < started + maxSeconds
      ensures ok ==> Admits(View(inFlight), Limits(maxTokens, maxCalls, 0, 0))
    {
      ok := !Exhausted(now);
    }
  }

  datatype Usage = Usage(tokens: nat, calls: nat, inFlight: nat)

  /** `width` bounds the calls in flight, and `cost` the tokens of one call. */
  datatype Limits = Limits(maxTokens: nat, maxCalls: nat, width: nat, cost: nat)

  /** A call starts, finishes with its token count, or fails without being charged. */
  datatype Step = Start | Finish(tokens: nat) | Fail

  predicate Admits(u: Usage, l: Limits) {
    u.tokens < l.maxTokens && u.calls < l.maxCalls
  }

  /** A call may also be refused because time is up: starting is possible but never forced. */
  predicate Enabled(u: Usage, step: Step, l: Limits) {
    match step
    case Start => Admits(u, l) && u.inFlight < l.width
    case Finish(tokens) => u.inFlight > 0 && tokens <= l.cost
    case Fail => u.inFlight > 0
  }

  function Next(u: Usage, step: Step): Usage
    requires !step.Start? ==> u.inFlight > 0
  {
    match step
    case Start => u.(inFlight := u.inFlight + 1)
    case Finish(tokens) => Usage(u.tokens + tokens, u.calls + 1, u.inFlight - 1)
    case Fail => u.(inFlight := u.inFlight - 1)
  }

  predicate Run(u: Usage, steps: seq<Step>, l: Limits)
    decreases steps
  {
    steps == [] ||
    (Enabled(u, steps[0], l)
     && Run(Next(u, steps[0]), steps[1..], l))
  }

  function After(u: Usage, steps: seq<Step>, l: Limits): Usage
    requires Run(u, steps, l)
    decreases steps
  {
    if steps == [] then u
    else After(Next(u, steps[0]), steps[1..], l)
  }

  function Started(u: Usage): nat {
    u.calls + u.inFlight
  }

  const UNUSED := Usage(0, 0, 0)

  /** Calls in flight are as good as charged, at the highest price. */
  predicate Within(u: Usage, l: Limits) {
    && u.inFlight <= l.width
    && (u.inFlight > 0 || u.calls > 0 ==> u.calls + u.inFlight <= l.maxCalls + l.width - 1)
    && (u.inFlight > 0 || u.tokens > 0 ==> u.tokens + u.inFlight * l.cost <= l.maxTokens + l.width * l.cost - 1)
  }

  lemma OneLess(inFlight: nat, cost: nat)
    requires inFlight > 0
    ensures (inFlight - 1) * cost == inFlight * cost - cost
  {}

  lemma StepStaysWithin(u: Usage, step: Step, l: Limits)
    requires Within(u, l)
    requires Enabled(u, step, l)
    ensures Within(Next(u, step), l)
  {
    var u' := Next(u, step);
    if step.Start? {
      CostOfMore(u'.inFlight, l.width, l.cost);
    } else {
      OneLess(u.inFlight, l.cost);
    }
  }

  lemma {:induction false} RunStaysWithin(
      u: Usage, steps: seq<Step>, l: Limits)
    requires Within(u, l)
    requires Run(u, steps, l)
    ensures Within(After(u, steps, l), l)
    decreases steps
  {
    if steps != [] {
      StepStaysWithin(u, steps[0], l);
      RunStaysWithin(Next(u, steps[0]), steps[1..], l);
    }
  }

  /** The most tokens a run can use: what finished calls can have used when the last call was
      let in, and the full width at the highest price. */
  function MostTokens(l: Limits): int {
    var alone := if l.maxTokens - 1 < (l.maxCalls - 1) * l.cost then l.maxTokens - 1 else (l.maxCalls - 1) * l.cost;
    alone + l.width * l.cost
  }

  predicate Affords(u: Usage, l: Limits) {
    && u.tokens <= u.calls * l.cost
    && (u.inFlight > 0 || u.tokens > 0 ==> u.tokens + u.inFlight * l.cost <= MostTokens(l))
  }

  lemma CostOfMore(m: nat, n: int, cost: nat)
    requires m <= n
    ensures 0 <= m * cost <= n * cost
  {
    assert n * cost - m * cost == (n - m) * cost;
    assert (n - m) * cost >= 0;
  }

  lemma CostOfOneMore(n: int, cost: nat)
    ensures (n + 1) * cost == n * cost + cost
  {}

  lemma StepStaysAffordable(u: Usage, step: Step, l: Limits)
    requires Affords(u, l) && Enabled(u, step, l)
    ensures Affords(Next(u, step), l)
  {
    CostOfOneMore(u.calls, l.cost);
    CostOfOneMore(u.inFlight - 1, l.cost);
    if step.Start? {
      CostOfMore(u.inFlight + 1, l.width, l.cost);
      CostOfMore(u.calls, l.maxCalls - 1, l.cost);
    }
  }

  lemma {:induction false} RunStaysAffordable(u: Usage, steps: seq<Step>, l: Limits)
    requires Affords(u, l) && Run(u, steps, l)
    ensures Affords(After(u, steps, l), l)
    decreases steps
  {
    if steps != [] {
      StepStaysAffordable(u, steps[0], l);
      RunStaysAffordable(Next(u, steps[0]), steps[1..], l);
    }
  }

  lemma AffordedTokens(u: Usage, l: Limits)
    requires Affords(u, l) && l.maxCalls > 0 && l.maxTokens > 0
    ensures u.tokens <= MostTokens(l)
  {
    CostOfMore(0, u.inFlight, l.cost);
    CostOfMore(0, l.width, l.cost);
    CostOfMore(0, l.maxCalls - 1, l.cost);
  }

  lemma TokensWithin(u: Usage, l: Limits)
    requires Within(u, l) && l.maxTokens > 0
    ensures u.tokens < l.maxTokens + l.width * l.cost
  {
    CostOfMore(0, u.inFlight, l.cost);
    CostOfMore(0, l.width, l.cost);
  }

  /** In every interleaving, started calls exceed the ceiling by less than the width, and
      tokens by less than what the width can cost. */
  lemma OvershootBound(steps: seq<Step>, l: Limits)
    requires l.width > 0 && l.maxTokens > 0 && Run(UNUSED, steps, l)
    ensures var u := After(UNUSED, steps, l);
            && Started(u) <= l.maxCalls + l.width - 1
            && u.tokens < l.maxTokens + l.width * l.cost
            && (l.maxCalls > 0 ==> u.tokens <= MostTokens(l))
  {
    assert Within(UNUSED, l) && Affords(UNUSED, l);
    RunStaysWithin(UNUSED, steps, l);
    RunStaysAffordable(UNUSED, steps, l);
    var u := After(UNUSED, steps, l);
    assert Started(u) <= l.maxCalls + l.width - 1;
    hide Run, After, Within, Affords, MostTokens;
    TokensWithin(u, l);
    if l.maxCalls > 0 {
      AffordedTokens(u, l);
    }
  }

  function Repeat(step: Step, n: nat): seq<Step> {
    if n == 0 then [] else [step] + Repeat(step, n - 1)
  }

  lemma {:induction false} StartsRun(u: Usage, n: nat, l: Limits)
    requires Admits(u, l) && u.inFlight + n <= l.width
    ensures Run(u, Repeat(Start, n), l)
    ensures After(u, Repeat(Start, n), l) == u.(inFlight := u.inFlight + n)
    decreases n
  {
    if n > 0 {
      StartsRun(Next(u, Start), n - 1, l);
      assert Repeat(Start, n)[1..] == Repeat(Start, n - 1);
    }
  }

  /** One below the ceiling, the full width can still start: the bound on calls is attained. */
  lemma OvershootIsAttained(l: Limits)
    requires l.width > 0 && l.maxTokens > 0 && l.maxCalls > 0
    ensures exists steps :: Run(UNUSED, steps, l) && Started(After(UNUSED, steps, l)) == l.maxCalls + l.width - 1
  {
    hide Run, After, Repeat, Alternate;
    OneByOne(UNUSED, l.maxCalls - 1, l);
    var alone := Alternate(l.maxCalls - 1);
    var u := After(UNUSED, alone, l);
    StartsRun(u, l.width, l);
    RunAppend(UNUSED, alone, Repeat(Start, l.width), l);
    assert Started(After(UNUSED, alone + Repeat(Start, l.width), l)) == l.maxCalls + l.width - 1;
  }

  function Alternate(n: nat): seq<Step> {
    if n == 0 then [] else [Start, Finish(0)] + Alternate(n - 1)
  }

  lemma {:induction false} OneByOne(u: Usage, n: nat, l: Limits)
    requires u.inFlight == 0 && u.tokens < l.maxTokens && u.calls + n < l.maxCalls && l.width > 0
    ensures Run(u, Alternate(n), l)
    ensures After(u, Alternate(n), l) == u.(calls := u.calls + n)
    decreases n
  {
    if n > 0 {
      var u' := Next(Next(u, Start), Finish(0));
      OneByOne(u', n - 1, l);
      assert Alternate(n)[1..] == [Finish(0)] + Alternate(n - 1);
      assert Alternate(n)[1..][1..] == Alternate(n - 1);
    }
  }

  lemma {:induction false} RunAppend(
      u: Usage, a: seq<Step>, b: seq<Step>, l: Limits)
    requires Run(u, a, l)
    requires Run(After(u, a, l), b, l)
    ensures Run(u, a + b, l)
    ensures After(u, a + b, l)
         == After(After(u, a, l), b, l)
    decreases a
  {
    if a == [] {
      assert a + b == b;
    } else {
      RunAppend(Next(u, a[0]), a[1..], b, l);
      assert (a + b)[1..] == a[1..] + b;
    }
  }

  /** Calls one after the other that use exactly so many tokens. */
  function Spend(tokens: nat, cost: nat): seq<Step>
    requires tokens == 0 || cost > 0
  {
    if tokens == 0 then []
    else if tokens <= cost then [Start, Finish(tokens)]
    else [Start, Finish(cost)] + Spend(tokens - cost, cost)
  }

  lemma {:induction false} SpendRuns(u: Usage, tokens: nat, n: nat, l: Limits)
    requires u.inFlight == 0 && l.width > 0 && tokens <= n * l.cost && (tokens == 0 || l.cost > 0)
    requires u.tokens + tokens < l.maxTokens && u.calls + n < l.maxCalls
    ensures Run(u, Spend(tokens, l.cost), l)
    ensures var u' := After(u, Spend(tokens, l.cost), l);
            u'.tokens == u.tokens + tokens && u'.calls <= u.calls + n && u'.inFlight == 0
    decreases n
  {
    if tokens > 0 {
      assert n > 0;
      var spent := if tokens <= l.cost then tokens else l.cost;
      var u' := Next(Next(u, Start), Finish(spent));
      assert (n - 1) * l.cost == n * l.cost - l.cost;
      assert (n - 1) * l.cost >= 0;
      SpendRuns(u', tokens - spent, n - 1, l);
      var rest := Spend(tokens - spent, l.cost);
      assert Spend(tokens, l.cost) == [Start, Finish(spent)] + rest;
      assert ([Start, Finish(spent)] + rest)[1..] == [Finish(spent)] + rest;
      assert ([Finish(spent)] + rest)[1..] == rest;
    }
  }

  lemma {:induction false} FinishesRun(u: Usage, n: nat, l: Limits)
    requires u.inFlight == n
    ensures Run(u, Repeat(Finish(l.cost), n), l)
    ensures After(u, Repeat(Finish(l.cost), n), l) == Usage(u.tokens + n * l.cost, u.calls + n, 0)
    decreases n
  {
    if n > 0 {
      FinishesRun(Next(u, Finish(l.cost)), n - 1, l);
      assert Repeat(Finish(l.cost), n)[1..] == Repeat(Finish(l.cost), n - 1);
      assert (n - 1) * l.cost == n * l.cost - l.cost;
    }
  }

  /** The bound on tokens is attained: spend up to the last call that is let in, then start the
      full width and let every call cost the most. */
  lemma TokenOvershootIsAttained(l: Limits)
    requires l.width > 0 && l.maxTokens > 0 && l.maxCalls > 0
    ensures MostTokens(l) >= 0
    ensures exists steps :: Run(UNUSED, steps, l) && After(UNUSED, steps, l).tokens == MostTokens(l)
  {
    assert (l.maxCalls - 1) * l.cost >= 0 && l.width * l.cost >= 0;
    var alone := MostTokens(l) - l.width * l.cost;
    SpendRuns(UNUSED, alone, l.maxCalls - 1, l);
    var spend, start, finish := Spend(alone, l.cost), Repeat(Start, l.width), Repeat(Finish(l.cost), l.width);
    var u := After(UNUSED, spend, l);
    StartsRun(u, l.width, l);
    RunAppend(UNUSED, spend, start, l);
    var full := After(u, start, l);
    FinishesRun(full, l.width, l);
    RunAppend(UNUSED, spend + start, finish, l);
    hide Run, After;
    assert After(UNUSED, spend + start + finish, l).tokens == MostTokens(l);
  }

  /** So the ceiling is overshot by a full width but one token exactly when the calls before the
      last can use up all but one token. */
  lemma FullOvershootIff(l: Limits)
    requires l.width > 0 && l.maxTokens > 0 && l.maxCalls > 0
    ensures (exists steps :: Run(UNUSED, steps, l)
                          && After(UNUSED, steps, l).tokens == l.maxTokens + l.width * l.cost - 1)
       <==> (l.maxCalls - 1) * l.cost >= l.maxTokens - 1
  {
    forall steps | Run(UNUSED, steps, l)
      ensures After(UNUSED, steps, l).tokens <= MostTokens(l)
    {
      OvershootBound(steps, l);
    }
    TokenOvershootIsAttained(l);
  }
}
