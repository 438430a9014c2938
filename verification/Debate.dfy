/** `DebateModerator.run` over shared claim objects, and what it returns for every model. */
module Debate {
  import opened Options
  import opened Sources
  import opened Claims
  import opened Numerals

  // ---------------------------------------------------------------------------------------
  // Lists of claims
  // ---------------------------------------------------------------------------------------

  lemma {:induction false} UnrefutedMembers(cs: seq<Claim>)
    requires Distinct(cs)
    ensures Distinct(Unrefuted(cs))
    ensures forall c :: c in Unrefuted(cs) ==> c in cs && !c.status.Refuted?
    ensures forall c :: c in cs && !c.status.Refuted? ==> c in Unrefuted(cs)
  {
    if cs != [] {
      var n := |cs| - 1;
      UnrefutedMembers(cs[..n]);
      assert cs == cs[..n] + [cs[n]];
      assert cs[n] !in Unrefuted(cs[..n]);
    }
  }

  /** A claim is listed once if it is refuted and not at all otherwise. */
  lemma {:induction false} RefutedCounts(cs: seq<Claim>, c: Claim)
    requires Distinct(cs)
    ensures multiset(RefutedAmong(cs))[c] == if c in cs && c.status.Refuted? then 1 else 0
  {
    if cs != [] {
      var n := |cs| - 1;
      RefutedCounts(cs[..n], c);
      assert cs == cs[..n] + [cs[n]];
      assert cs[n] !in cs[..n];
    }
  }

  /** The claim is among those verified, and its verification does not raise. */
  ghost predicate Survives(cs: seq<Claim>, byRef: map<string, Source>, replies: seq<Reply>, c: Claim)
    requires |cs| == |replies|
  {
    exists i :: 0 <= i < |cs| && cs[i] == c && !Raises(c.refs, byRef, replies[i])
  }

  lemma SurvivesLast(cs: seq<Claim>, byRef: map<string, Source>, replies: seq<Reply>, c: Claim)
    requires |cs| == |replies| > 0
    ensures Survives(cs, byRef, replies, c) <==>
      || Survives(cs[..|cs| - 1], byRef, replies[..|cs| - 1], c)
      || (cs[|cs| - 1] == c && !Raises(c.refs, byRef, replies[|cs| - 1]))
  {
    hide Raises;
    var n := |cs| - 1;
    if Survives(cs[..n], byRef, replies[..n], c) {
      var i :| 0 <= i < n && cs[..n][i] == c && !Raises(c.refs, byRef, replies[..n][i]);
      assert cs[i] == c && !Raises(c.refs, byRef, replies[i]);
    }
    forall i | 0 <= i < n ensures cs[..n][i] == cs[i] && replies[..n][i] == replies[i] {}
  }

  lemma {:induction false} SurvivorsAreListed(
      cs: seq<Claim>, byRef: map<string, Source>, replies: seq<Reply>, c: Claim)
    requires |cs| == |replies|
    ensures c in Survivors(cs, byRef, replies) <==> Survives(cs, byRef, replies, c)
  {
    if cs != [] {
      var n := |cs| - 1;
      SurvivorsAreListed(cs[..n], byRef, replies[..n], c);
      SurvivesLast(cs, byRef, replies, c);
      hide Survives, Raises;
    }
  }

  /** A claim survives once if its verification does not raise and not at all otherwise. */
  lemma {:induction false} SurvivorCounts(
      cs: seq<Claim>, byRef: map<string, Source>, replies: seq<Reply>, c: Claim)
    requires |cs| == |replies| && Distinct(cs)
    ensures multiset(Survivors(cs, byRef, replies))[c] == if Survives(cs, byRef, replies, c) then 1 else 0
  {
    if cs != [] {
      var n := |cs| - 1;
      SurvivorCounts(cs[..n], byRef, replies[..n], c);
      SurvivesLast(cs, byRef, replies, c);
      assert cs[n] !in cs[..n];
      assert cs[n] == c ==> !Survives(cs[..n], byRef, replies[..n], c);
      hide Survives, Raises;
    }
  }

  lemma {:induction false} SurvivorsDistinct(cs: seq<Claim>, byRef: map<string, Source>, replies: seq<Reply>)
    requires |cs| == |replies| && Distinct(cs)
    ensures Distinct(Survivors(cs, byRef, replies))
  {
    if cs != [] {
      var n := |cs| - 1;
      SurvivorsDistinct(cs[..n], byRef, replies[..n]);
      SurvivorsAreListed(cs[..n], byRef, replies[..n], cs[n]);
      assert cs[n] !in Survivors(cs[..n], byRef, replies[..n]);
      hide Raises;
    }
  }

  // ---------------------------------------------------------------------------------------
  // The order of what is returned
  // ---------------------------------------------------------------------------------------

  /** Some of the claims, in the order of them all. */
  predicate InOrder(part: seq<Claim>, all: seq<Claim>)
    decreases |all|
  {
    part == [] ||
    (all != [] &&
     (InOrder(part, all[..|all| - 1])
      || (part[|part| - 1] == all[|all| - 1] && InOrder(part[..|part| - 1], all[..|all| - 1]))))
  }

  lemma OneMoreInOrder(part: seq<Claim>, all: seq<Claim>, c: Claim)
    requires InOrder(part, all)
    ensures InOrder(part, all + [c]) && InOrder(part + [c], all + [c])
  {
    assert (all + [c])[..|all|] == all && (part + [c])[..|part|] == part;
  }

  lemma {:induction false} InOrderThrough(a: seq<Claim>, b: seq<Claim>, c: seq<Claim>)
    requires InOrder(a, b) && InOrder(b, c)
    ensures InOrder(a, c)
    decreases |c|
  {
    if a != [] {
      var c', b', a' := c[..|c| - 1], b[..|b| - 1], a[..|a| - 1];
      if InOrder(b, c') {
        InOrderThrough(a, b, c');
      } else if InOrder(a, b') {
        InOrderThrough(a, b', c');
      } else {
        InOrderThrough(a', b', c');
      }
    }
  }

  lemma NoneSurvive(byRef: map<string, Source>)
    ensures Survivors([], byRef, []) == [] && InOrder([], [])
  {}

  lemma SurvivorsLast(cs: seq<Claim>, byRef: map<string, Source>, replies: seq<Reply>)
    requires |cs| == |replies| > 0
    ensures var n := |cs| - 1;
            var earlier := Survivors(cs[..n], byRef, replies[..n]);
            Survivors(cs, byRef, replies) == earlier || Survivors(cs, byRef, replies) == earlier + [cs[n]]
  {
    hide Raises;
  }

  lemma {:induction false} SurvivorsInOrder(cs: seq<Claim>, byRef: map<string, Source>, replies: seq<Reply>)
    requires |cs| == |replies|
    ensures InOrder(Survivors(cs, byRef, replies), cs)
    decreases |cs|
  {
    hide Survivors, InOrder, Raises;
    if cs != [] {
      var n := |cs| - 1;
      SurvivorsInOrder(cs[..n], byRef, replies[..n]);
      OneMoreInOrder(Survivors(cs[..n], byRef, replies[..n]), cs[..n], cs[n]);
      SurvivorsLast(cs, byRef, replies);
      assert cs[..n] + [cs[n]] == cs;
    } else {
      NoneSurvive(byRef);
    }
  }

  lemma {:induction false} StatusesInOrder(cs: seq<Claim>)
    ensures InOrder(Unrefuted(cs), cs) && InOrder(RefutedAmong(cs), cs)
  {
    if cs != [] {
      var n := |cs| - 1;
      StatusesInOrder(cs[..n]);
      OneMoreInOrder(Unrefuted(cs[..n]), cs[..n], cs[n]);
      OneMoreInOrder(RefutedAmong(cs[..n]), cs[..n], cs[n]);
      assert Unrefuted(cs) == Unrefuted(cs[..n]) || Unrefuted(cs) == Unrefuted(cs[..n]) + [cs[n]];
      assert RefutedAmong(cs) == RefutedAmong(cs[..n]) || RefutedAmong(cs) == RefutedAmong(cs[..n]) + [cs[n]];
      assert cs[..n] + [cs[n]] == cs;
      hide InOrder;
    } else {
      assert InOrder([], cs);
    }
  }

  /** All that is refuted stands behind what was rescored, and both parts are in order. */
  ghost predicate RefutedStandLast(result: seq<Claim>, claims: seq<Claim>)
    reads result
  {
    exists k: nat ::
      && k <= |result| && InOrder(result[..k], claims) && InOrder(result[k..], claims)
      && (forall c :: c in result[k..] ==> c.status.Refuted?)
      && (forall c :: c in result && c.status.Refuted? ==> c in result[k..])
  }

  lemma {:induction false} RefutedAmongAre(cs: seq<Claim>)
    ensures forall c :: c in RefutedAmong(cs) <==> c in cs && c.status.Refuted?
  {
    if cs != [] {
      var n := |cs| - 1;
      RefutedAmongAre(cs[..n]);
      assert cs == cs[..n] + [cs[n]];
    }
  }

  /** Some of these, some of those, always in the order of all. */
  predicate Nested(contested: seq<Claim>, verified: seq<Claim>, claims: seq<Claim>) {
    && InOrder(verified, claims) && InOrder(contested, verified)
    && (forall c :: c in contested ==> c in verified) && (forall c :: c in verified ==> c in claims)
  }

  lemma ReturnedInOrder(
      result: seq<Claim>, claims: seq<Claim>, cs: seq<Claim>, contested: seq<Claim>,
      byRef: map<string, Source>, replies: seq<Reply>)
    requires Nested(contested, cs, claims) && |contested| == |replies|
    requires result == Survivors(contested, byRef, replies) + RefutedAmong(cs)
    ensures RefutedStandLast(result, claims)
  {
    SurvivorsInOrder(contested, byRef, replies);
    StatusesInOrder(cs);
    SurvivorsAmong(contested, byRef, replies);
    hide Survivors, RefutedAmong, InOrder, RefutedStandLast;
    InOrderThrough(Survivors(contested, byRef, replies), contested, cs);
    InOrderThrough(Survivors(contested, byRef, replies), cs, claims);
    InOrderThrough(RefutedAmong(cs), cs, claims);
    StandLast(Survivors(contested, byRef, replies), cs, claims);
  }

  lemma StandLast(rescored: seq<Claim>, cs: seq<Claim>, claims: seq<Claim>)
    requires InOrder(rescored, claims) && InOrder(RefutedAmong(cs), claims)
    requires forall c :: c in rescored ==> c in cs
    ensures RefutedStandLast(rescored + RefutedAmong(cs), claims)
  {
    RefutedAmongAre(cs);
    hide InOrder;
    var refuted := RefutedAmong(cs);
    var k: nat, result := |rescored|, rescored + refuted;
    assert result[..k] == rescored && result[k..] == refuted;
    assert InOrder(result[..k], claims) && InOrder(result[k..], claims);
    assert RefutedStandLast(result, claims);
  }

  lemma SurvivorsAmong(cs: seq<Claim>, byRef: map<string, Source>, replies: seq<Reply>)
    requires |cs| == |replies|
    ensures forall c :: c in Survivors(cs, byRef, replies) ==> c in cs
  {
    hide Survivors, Raises;
    forall c | c in Survivors(cs, byRef, replies) ensures c in cs {
      SurvivorsAreListed(cs, byRef, replies, c);
    }
  }

  // ---------------------------------------------------------------------------------------
  // The round loop
  // ---------------------------------------------------------------------------------------

  /** One claim of a round; `settled` says that nothing serious was raised against it. */
  method Contest(c: Claim, critique: Critique, reply: Rebuttal, round: nat) returns (ok: bool, settled: bool)
    modifies c
    ensures ok <==> !ContestRaises(critique, reply)
    ensures ok ==> c.View() == Contested(old(c.View()), critique, reply, round)
    ensures settled <==> Serious(critique) == []
  {
    var serious := Serious(critique);
    settled := serious == [];
    if critique.BadCritique? {
      return false, settled;
    }
    ok := true;
    if !settled {
      ok := Rebut(c, serious, reply, round);
    }
  }

  /** One round over the contested claims; `ok` is false when it raises. */
  method HoldRound(cs: seq<Claim>, round: nat, critic: Critic, rebutter: Rebutter)
    returns (ok: bool, unresolved: nat)
    requires Distinct(cs)
    modifies cs
    ensures ok <==> !RoundRaises(|cs|, round, critic, rebutter)
    ensures ok ==> Views(cs) == RoundOf(old(Views(cs)), round, critic, rebutter)
    ensures ok ==> (unresolved == 0 <==> RoundSettles(|cs|, round, critic))
    ensures ok <==> forall i: nat :: i < |cs| ==> !Breaks(critic(round, i), rebutter(round, i))
    ensures ok ==> (unresolved == 0 <==> !AnyChallenged(|cs|, round, critic))
    ensures ok ==> AllAnswered(old(Views(cs)), Views(cs), round, critic, rebutter)
  {
    ghost var before := Views(cs);
    hide Contested, Serious, ContestRaises, Breaks, AnyChallenged, AllAnswered;
    unresolved := 0;
    for i := 0 to |cs|
      invariant !RoundRaises(i, round, critic, rebutter)
      invariant unresolved == 0 <==> RoundSettles(i, round, critic)
      invariant forall j :: 0 <= j < i ==>
        cs[j].View() == Contested(old(cs[j].View()), critic(round, j), rebutter(round, j), round)
      invariant forall j :: i <= j < |cs| ==> cs[j].View() == old(cs[j].View())
    {
      var settled;
      ok, settled := Contest(cs[i], critic(round, i), rebutter(round, i), round);
      if !ok {
        assert ContestRaises(critic(round, i), rebutter(round, i));
        RoundLaws(before, round, critic, rebutter);
        return false, unresolved;
      }
      if !settled {
        unresolved := unresolved + 1;
      }
    }
    ok := true;
    assert Views(cs) == RoundOf(before, round, critic, rebutter);
    RoundLaws(before, round, critic, rebutter);
  }

  predicate AllAnswered(
      before: seq<Standing>, after: seq<Standing>, round: nat, critic: Critic, rebutter: Rebutter)
  {
    && |after| == |before|
    && forall i :: 0 <= i < |before| ==>
      Answered(before[i], after[i], critic(round, i), rebutter(round, i), round)
  }

  lemma RoundLaws(vs: seq<Standing>, round: nat, critic: Critic, rebutter: Rebutter)
    ensures RoundRaises(|vs|, round, critic, rebutter)
       <==> exists i: nat :: i < |vs| && Breaks(critic(round, i), rebutter(round, i))
    ensures RoundSettles(|vs|, round, critic) <==> !AnyChallenged(|vs|, round, critic)
    ensures AllAnswered(vs, RoundOf(vs, round, critic, rebutter), round, critic, rebutter)
  {
    RoundRaisesIff(|vs|, round, critic, rebutter);
    RoundSettlesIff(|vs|, round, critic);
    hide RoundRaises, RoundSettles, Contested, Answered, Breaks, AnyChallenged;
    forall i | 0 <= i < |vs|
      ensures Answered(
        vs[i], Contested(vs[i], critic(round, i), rebutter(round, i), round), critic(round, i), rebutter(round, i),
        round)
    {
      ContestedIs(vs[i], critic(round, i), rebutter(round, i), round);
    }
  }

  /** What a challenge and its answer do to a claim, in the numbers of the configuration. */
  predicate Answered(before: Standing, after: Standing, critique: Critique, reply: Rebuttal, round: nat) {
    if !Challenged(critique) || reply.NoRebuttal? then after == before
    else if reply.BadRebuttal? then true
    else
      var few := critique.list[..if |critique.list| <= 3 then |critique.list| else 3];
      var medium, high := multiset(few)[Medium], multiset(few)[High];
      var left := before.support - 0.08 * medium as real - 0.2 * high as real - if reply.concede then 0.15 else 0.0;
      && after.rounds == round && after.status == (if reply.concede then Uncertain else before.status)
      && after.text == (if reply.revised.Some? && |reply.revised.value| > 15 then reply.revised.value else before.text)
      && after.rebuttals == before.rebuttals
         + (if reply.response == "" then [] else ["R" + Decimal(round) + ": " + reply.response])
      && if left < 0.0 then after.support == 0.0 else left - 0.0005 <= after.support <= left + 0.0005
  }

  lemma ContestedIs(v: Standing, critique: Critique, reply: Rebuttal, round: nat)
    ensures Answered(v, Contested(v, critique, reply, round), critique, reply, round)
  {
    SeriousIs(critique);
    if Challenged(critique) && reply.Rebutted? {
      RebuttedIs(v, critique, reply, round);
    } else {
      hide Serious, Challenged, Penalty, Round3;
    }
  }

  /** What the serious challenges cost. */
  lemma SeriousPenaltyIs(critique: Critique)
    requires critique.Challenges?
    ensures var few := multiset(critique.list[..if |critique.list| <= 3 then |critique.list| else 3]);
            Penalty(Serious(critique)) == 0.08 * few[Medium] as real + 0.2 * few[High] as real
  {
    SeriousIs(critique);
    PenaltyIs(Serious(critique));
    SeveritiesAddUp(Serious(critique));
    hide Serious, Penalty;
  }

  lemma RebuttedIs(v: Standing, critique: Critique, reply: Rebuttal, round: nat)
    requires Challenged(critique) && reply.Rebutted?
    ensures Answered(v, Contested(v, critique, reply, round), critique, reply, round)
  {
    SeriousIs(critique);
    SeriousPenaltyIs(critique);
    RebuffedIs(v, Serious(critique), reply, round);
    hide Serious, Challenged, Penalty, Rebuffed, Decimal;
  }

  lemma {:induction false} SeveritiesAddUp(list: seq<Severity>)
    ensures var m := multiset(list); |list| == m[Low] + m[Medium] + m[High] + m[Other]
  {
    if list != [] {
      var first, rest := multiset{list[0]}, multiset(list[1..]);
      SeveritiesAddUp(list[1..]);
      assert list == [list[0]] + list[1..];
      assert multiset(list) == first + rest;
      match list[0] {
        case Low => assert first[Low] == 1;
        case Medium => assert first[Medium] == 1;
        case High => assert first[High] == 1;
        case Other => assert first[Other] == 1;
      }
    }
  }

  lemma RebuffedIs(v: Standing, serious: seq<Severity>, reply: Rebuttal, round: nat)
    requires reply.Rebutted?
    ensures
      var w := Rebuffed(v, serious, reply, round);
      var left := v.support - Penalty(serious) - if reply.concede then 0.15 else 0.0;
      && w.rounds == round && w.status == (if reply.concede then Uncertain else v.status)
      && w.text == (if reply.revised.Some? && |reply.revised.value| > 15 then reply.revised.value else v.text)
      && w.rebuttals == v.rebuttals
         + (if reply.response == "" then [] else ["R" + Decimal(round) + ": " + reply.response])
      && if left < 0.0 then w.support == 0.0 else left - 0.0005 <= w.support <= left + 0.0005
  {
    hide Penalty;
  }

  lemma SettledRoundChangesNothing(vs: seq<Standing>, round: nat, critic: Critic, rebutter: Rebutter)
    requires RoundSettles(|vs|, round, critic)
    ensures RoundOf(vs, round, critic, rebutter) == vs
  {}

  // ---------------------------------------------------------------------------------------
  // The whole stage
  // ---------------------------------------------------------------------------------------

  function Rounds(maxRounds: int, depth: int): int {
    if maxRounds < depth then maxRounds else depth
  }

  /** A critique or an answer of the wrong shape. */
  predicate Breaks(critique: Critique, reply: Rebuttal) {
    critique.BadCritique? || (Challenged(critique) && reply.BadRebuttal?)
  }

  predicate AnyChallenged(n: nat, round: nat, critic: Critic) {
    exists i: nat :: i < n && Challenged(critic(round, i))
  }

  /** A debate that has come to the round `start` holds the other: none up to it is halted, and in
      every one before it some claim is challenged. */
  predicate Holds(start: nat, round: nat, n: nat, critic: Critic, halt: nat -> bool) {
    && (forall q: nat :: start <= q <= round ==> !halt(q))
    && (forall q: nat :: start <= q < round ==> AnyChallenged(n, q, critic))
  }

  lemma RoundSettlesIff(n: nat, round: nat, critic: Critic)
    ensures RoundSettles(n, round, critic) <==> !AnyChallenged(n, round, critic)
  {
    hide Serious, Challenged;
    forall i: nat ensures Serious(critic(round, i)) == [] <==> !Challenged(critic(round, i)) {
      SeriousIs(critic(round, i));
    }
  }

  lemma RoundRaisesIff(n: nat, round: nat, critic: Critic, rebutter: Rebutter)
    ensures RoundRaises(n, round, critic, rebutter)
       <==> exists i: nat :: i < n && Breaks(critic(round, i), rebutter(round, i))
  {
    hide Serious, Challenged;
    forall i: nat
      ensures ContestRaises(critic(round, i), rebutter(round, i)) <==> Breaks(critic(round, i), rebutter(round, i))
    {
      SeriousIs(critic(round, i));
    }
    hide ContestRaises, Breaks;
    if RoundRaises(n, round, critic, rebutter) {
      var i :| 0 <= i < n && ContestRaises(critic(round, i), rebutter(round, i));
      assert Breaks(critic(round, i), rebutter(round, i));
    }
  }

  lemma OneRound(v: Standing, critique: Critique, reply: Rebuttal, round: nat)
    ensures var w := Contested(v, critique, reply, round);
            w.rounds == if Challenged(critique) && !reply.NoRebuttal? then round else v.rounds
  {
    SeriousIs(critique);
    hide Serious, Challenged, Penalty, Round3;
  }

  /** Exactly when a debate raises. */
  ghost predicate DebateStops(
      n: nat, start: nat, rounds: int, critic: Critic, rebutter: Rebutter, halt: nat -> bool)
  {
    exists round: nat, i: nat ::
      start <= round <= rounds && Holds(start, round, n, critic, halt) && i < n
      && Breaks(critic(round, i), rebutter(round, i))
  }

  lemma {:induction false} DebateStopsIff(
      vs: seq<Standing>, start: nat, rounds: int, critic: Critic, rebutter: Rebutter, halt: nat -> bool)
    ensures Debated(vs, start, rounds, critic, rebutter, halt).None?
       <==> DebateStops(|vs|, start, rounds, critic, rebutter, halt)
    decreases rounds - start
  {
    var n := |vs|;
    if start > rounds || halt(start) || RoundRaises(n, start, critic, rebutter) || RoundSettles(n, start, critic) {
      StopsAtOnceIff(n, start, rounds, critic, rebutter, halt);
    } else {
      RoundRaisesIff(n, start, critic, rebutter);
      RoundSettlesIff(n, start, critic);
      DebateStopsIff(RoundOf(vs, start, critic, rebutter), start + 1, rounds, critic, rebutter, halt);
      hide RoundRaises, RoundSettles, Breaks, AnyChallenged, DebateStops;
      StopsLater(n, start, rounds, critic, rebutter, halt);
    }
  }

  lemma StopsAtOnceIff(n: nat, start: nat, rounds: int, critic: Critic, rebutter: Rebutter, halt: nat -> bool)
    requires start > rounds || halt(start) || RoundRaises(n, start, critic, rebutter) || RoundSettles(n, start, critic)
    ensures DebateStops(n, start, rounds, critic, rebutter, halt) <==>
      start <= rounds && !halt(start) && RoundRaises(n, start, critic, rebutter)
  {
    RoundRaisesIff(n, start, critic, rebutter);
    RoundSettlesIff(n, start, critic);
    hide RoundRaises, RoundSettles, Breaks, AnyChallenged;
    if start <= rounds && !halt(start) {
      if RoundRaises(n, start, critic, rebutter) {
        var i: nat :| i < n && Breaks(critic(start, i), rebutter(start, i));
        assert Holds(start, start, n, critic, halt);
      } else {
        forall round: nat | round > start ensures !Holds(start, round, n, critic, halt) {}
      }
    }
  }

  lemma HoldsLater(start: nat, round: nat, n: nat, critic: Critic, halt: nat -> bool)
    requires start < round
    ensures Holds(start, round, n, critic, halt)
       <==> !halt(start) && AnyChallenged(n, start, critic) && Holds(start + 1, round, n, critic, halt)
  {
    hide AnyChallenged;
  }

  lemma StopsLater(n: nat, start: nat, rounds: int, critic: Critic, rebutter: Rebutter, halt: nat -> bool)
    requires !halt(start) && AnyChallenged(n, start, critic)
    requires !exists i: nat :: i < n && Breaks(critic(start, i), rebutter(start, i))
    ensures DebateStops(n, start, rounds, critic, rebutter, halt)
       <==> DebateStops(n, start + 1, rounds, critic, rebutter, halt)
  {
    hide Breaks, AnyChallenged;
    forall round: nat | round > start
      ensures Holds(start, round, n, critic, halt) <==> Holds(start + 1, round, n, critic, halt)
    {
      HoldsLater(start, round, n, critic, halt);
    }
    hide Holds;
  }

  predicate EveryRound(i: nat, start: nat, rounds: int, critic: Critic, rebutter: Rebutter, halt: nat -> bool) {
    forall round: nat :: start <= round <= rounds ==>
      !halt(round) && Challenged(critic(round, i)) && rebutter(round, i).Rebutted?
  }

  /** The number of rounds noted on a claim changes to that of a round that was held and in which
      the claim was challenged and answered; and to the last, if that happens in all of them. */
  ghost predicate DebateRounds(
      before: nat, after: nat, i: nat, n: nat, start: nat, rounds: int,
      critic: Critic, rebutter: Rebutter, halt: nat -> bool)
  {
    && (after == before ||
        (start <= after <= rounds && Holds(start, after, n, critic, halt)
         && Challenged(critic(after, i)) && rebutter(after, i).Rebutted?))
    && (EveryRound(i, start, rounds, critic, rebutter, halt) ==>
          after == if start <= rounds then rounds else before)
  }

  lemma RoundNoted(
      before: nat, next: nat, after: nat, i: nat, n: nat, start: nat, rounds: int,
      critic: Critic, rebutter: Rebutter, halt: nat -> bool)
    requires start <= rounds && !halt(start) && AnyChallenged(n, start, critic)
    requires !Breaks(critic(start, i), rebutter(start, i))
    requires next == if Challenged(critic(start, i)) && !rebutter(start, i).NoRebuttal? then start else before
    requires DebateRounds(next, after, i, n, start + 1, rounds, critic, rebutter, halt)
    ensures DebateRounds(before, after, i, n, start, rounds, critic, rebutter, halt)
  {
    hide AnyChallenged, Challenged;
    if start < after {
      HoldsLater(start, after, n, critic, halt);
    }
    assert Holds(start, start, n, critic, halt);
    hide Holds;
  }

  lemma {:induction false} DebateNotesRounds(
      vs: seq<Standing>, start: nat, rounds: int, critic: Critic, rebutter: Rebutter, halt: nat -> bool, i: nat)
    requires i < |vs| && Debated(vs, start, rounds, critic, rebutter, halt).Some?
    ensures DebateRounds(
      vs[i].rounds, Debated(vs, start, rounds, critic, rebutter, halt).value[i].rounds, i, |vs|, start, rounds,
      critic, rebutter, halt)
    decreases rounds - start
  {
    var n := |vs|;
    RoundRaisesIff(n, start, critic, rebutter);
    RoundSettlesIff(n, start, critic);
    if start <= rounds && !halt(start) {
      assert !Breaks(critic(start, i), rebutter(start, i));
      hide RoundRaises, RoundSettles, Challenged, Contested, Holds, Breaks;
      if AnyChallenged(n, start, critic) {
        var us := RoundOf(vs, start, critic, rebutter);
        DebateNotesRounds(us, start + 1, rounds, critic, rebutter, halt, i);
        OneRound(vs[i], critic(start, i), rebutter(start, i), start);
        var w := Debated(us, start + 1, rounds, critic, rebutter, halt).value[i];
        hide DebateRounds, AnyChallenged;
        RoundNoted(vs[i].rounds, us[i].rounds, w.rounds, i, n, start, rounds, critic, rebutter, halt);
      } else {
        assert !Challenged(critic(start, i));
      }
    }
  }

  function Smaller(a: int, b: int): (c: int)
    ensures c <= a && c <= b && (c == a || c == b)
  {
    if a <= b then a else b
  }

  /** What every debate does, for the stage. */
  lemma DebateLaws(
      vs: seq<Standing>, maxRounds: int, depth: int, critic: Critic, rebutter: Rebutter, halt: nat -> bool)
    ensures var ws := Debated(vs, 1, Rounds(maxRounds, depth), critic, rebutter, halt);
            var rounds := Smaller(maxRounds, depth);
            && (ws.None? <==> DebateStops(|vs|, 1, rounds, critic, rebutter, halt))
            && (ws.Some? ==> forall i :: 0 <= i < |vs| ==>
                  DebateRounds(vs[i].rounds, ws.value[i].rounds, i, |vs|, 1, rounds, critic, rebutter, halt))
  {
    var rounds := Smaller(maxRounds, depth);
    assert rounds == Rounds(maxRounds, depth);
    DebateStopsIff(vs, 1, rounds, critic, rebutter, halt);
    if Debated(vs, 1, rounds, critic, rebutter, halt).Some? {
      forall i | 0 <= i < |vs|
        ensures DebateRounds(vs[i].rounds, Debated(vs, 1, rounds, critic, rebutter, halt).value[i].rounds, i, |vs|,
                             1, rounds, critic, rebutter, halt)
      {
        DebateNotesRounds(vs, 1, rounds, critic, rebutter, halt, i);
      }
    }
  }

  lemma NotedWithinSettings(
      before: nat, after: nat, i: nat, n: nat, maxRounds: int, depth: int,
      critic: Critic, rebutter: Rebutter, halt: nat -> bool)
    requires DebateRounds(before, after, i, n, 1, Smaller(maxRounds, depth), critic, rebutter, halt)
    ensures after == before || (1 <= after <= maxRounds && after <= depth)
  {
    hide Challenged, Holds, EveryRound;
  }

  /** The claim is seriously challenged and answered in every round the settings allow. */
  ghost predicate Throughout(
      i: nat, maxRounds: int, depth: int, critic: Critic, rebutter: Rebutter, halt: nat -> bool)
  {
    && maxRounds >= 1 && depth >= 1
    && forall round: nat :: 1 <= round <= maxRounds && round <= depth ==>
      !halt(round) && Challenged(critic(round, i)) && rebutter(round, i).Rebutted?
  }

  /** A claim that is seriously challenged and answered in every round the settings allow, with no
      halt, has gone through exactly the smaller of the two settings' rounds. */
  lemma EveryRoundCounts(
      before: nat, after: nat, i: nat, n: nat, maxRounds: int, depth: int,
      critic: Critic, rebutter: Rebutter, halt: nat -> bool)
    requires DebateRounds(before, after, i, n, 1, Smaller(maxRounds, depth), critic, rebutter, halt)
    requires Throughout(i, maxRounds, depth, critic, rebutter, halt)
    ensures after == if maxRounds <= depth then maxRounds else depth
  {
    hide Challenged, Holds;
  }

  lemma VerificationKeepsRest(
      v: Standing, refs: seq<string>, byRef: map<string, Source>, reply: Reply, minSupport: real)
    ensures var w := Verified(v, refs, byRef, reply, minSupport);
            w.text == v.text && w.rounds == v.rounds && w.rebuttals == v.rebuttals
  {
    hide Judgement, Raises;
  }

  /** The rounds of the stage; `ok` is false when one raises. */
  method HoldRounds(
      cs: seq<Claim>, maxRounds: int, depth: int, critic: Critic, rebutter: Rebutter, halt: nat -> bool)
    returns (ok: bool)
    requires Distinct(cs)
    modifies cs
    ensures ok <==> Debated(old(Views(cs)), 1, Rounds(maxRounds, depth), critic, rebutter, halt).Some?
    ensures ok ==> Views(cs) == Debated(old(Views(cs)), 1, Rounds(maxRounds, depth), critic, rebutter, halt).value
    ensures ok <==> !DebateStops(|cs|, 1, Smaller(maxRounds, depth), critic, rebutter, halt)
    ensures ok ==> forall i :: 0 <= i < |cs| ==>
      && (cs[i].rounds == old(cs[i].rounds) || (1 <= cs[i].rounds <= maxRounds && cs[i].rounds <= depth))
      && DebateRounds(
        old(cs[i].rounds), cs[i].rounds, i, |cs|, 1, Smaller(maxRounds, depth), critic, rebutter, halt)
  {
    ghost var before := Views(cs);
    DebateLaws(before, maxRounds, depth, critic, rebutter, halt);
    var rounds := Rounds(maxRounds, depth);
    ok := LoopRounds(cs, rounds, critic, rebutter, halt);
    if ok {
      hide Debated, DebateStops, DebateRounds, Smaller, Rounds;
      assert forall i :: 0 <= i < |cs| ==> Views(cs)[i].rounds == cs[i].rounds;
      forall i | 0 <= i < |cs|
        ensures cs[i].rounds == before[i].rounds || (1 <= cs[i].rounds <= maxRounds && cs[i].rounds <= depth)
      {
        NotedWithinSettings(before[i].rounds, cs[i].rounds, i, |cs|, maxRounds, depth, critic, rebutter, halt);
      }
    }
  }

  /** Its loop. */
  method LoopRounds(cs: seq<Claim>, rounds: int, critic: Critic, rebutter: Rebutter, halt: nat -> bool)
    returns (ok: bool)
    requires Distinct(cs)
    modifies cs
    ensures ok <==> Debated(old(Views(cs)), 1, rounds, critic, rebutter, halt).Some?
    ensures ok ==> Views(cs) == Debated(old(Views(cs)), 1, rounds, critic, rebutter, halt).value
  {
    ghost var before := Views(cs);
    var round := 1;
    while round <= rounds && !halt(round)
      invariant Debated(before, 1, rounds, critic, rebutter, halt)
             == Debated(Views(cs), round, rounds, critic, rebutter, halt)
    {
      ghost var vs := Views(cs);
      var unresolved;
      ok, unresolved := HoldRound(cs, round, critic, rebutter);
      if !ok {
        return false;
      }
      if unresolved == 0 {
        SettledRoundChangesNothing(vs, round, critic, rebutter);
        return true;
      }
      round := round + 1;
    }
    return true;
  }

  /** After the stage: the state of the claims in terms of what the debate left. */
  ghost predicate Rescored(
      cs: seq<Claim>, contested: seq<Claim>, debated: seq<Standing>, byRef: map<string, Source>,
      replies: seq<Reply>, minSupport: real)
    reads cs, contested
  {
    && Distinct(cs) && Distinct(contested)
    && |contested| == |debated| == |replies|
    && (forall v :: v in debated ==> !v.status.Refuted?)
    && (forall i :: 0 <= i < |contested| ==> contested[i] in cs)
    && (forall i :: 0 <= i < |contested| ==>
          contested[i].View() == Verified(debated[i], contested[i].refs, byRef, replies[i], minSupport))
    && (forall i :: 0 <= i < |cs| && cs[i] !in contested ==> cs[i].status.Refuted?)
  }

  /** `DebateModerator.run`; `ok` is false when the stage raises. */
  method Moderate(
      cs: seq<Claim>, byRef: map<string, Source>, maxRounds: int, depth: int, minSupport: real,
      critic: Critic, rebutter: Rebutter, halt: nat -> bool, replies: seq<Reply>)
    returns (ok: bool, result: seq<Claim>, ghost contested: seq<Claim>)
    requires Distinct(cs) && |replies| == |Unrefuted(cs)|
    modifies cs
    ensures contested == old(Unrefuted(cs))
    ensures ok <==> Debated(old(Views(contested)), 1, Rounds(maxRounds, depth), critic, rebutter, halt).Some?
    ensures ok ==>
      var debated := Debated(old(Views(contested)), 1, Rounds(maxRounds, depth), critic, rebutter, halt).value;
      Rescored(cs, contested, debated, byRef, replies, minSupport)
    ensures forall i :: 0 <= i < |cs| && cs[i] !in contested ==> cs[i].View() == old(cs[i].View())
    ensures ok ==> result == Survivors(contested, byRef, replies) + RefutedAmong(cs)
    ensures ok <==> !DebateStops(|contested|, 1, Smaller(maxRounds, depth), critic, rebutter, halt)
    ensures ok ==> forall i :: 0 <= i < |contested| ==>
      || contested[i].rounds == old(contested[i].rounds)
      || (1 <= contested[i].rounds <= maxRounds && contested[i].rounds <= depth)
    ensures ok ==> forall i :: 0 <= i < |contested| ==>
      DebateRounds(
        old(contested[i].rounds), contested[i].rounds, i, |contested|, 1, Smaller(maxRounds, depth),
        critic, rebutter, halt)
  {
    hide Holds, Breaks, Challenged, DebateStops, DebateRounds, Smaller;
    hide Debated, Verified, Survivors, Raises, Rounds;
    contested := Unrefuted(cs);
    UnrefutedMembers(cs);
    var debating := Unrefuted(cs);
    assert forall i :: 0 <= i < |debating| ==> debating[i] in cs;
    assert forall i :: 0 <= i < |cs| && cs[i] !in debating ==> cs[i].status.Refuted?;
    ghost var before := Views(debating);
    assert forall v :: v in before ==> !v.status.Refuted?;
    hide Unrefuted, RefutedAmong;
    result := [];
    ok := HoldRounds(debating, maxRounds, depth, critic, rebutter, halt);
    if !ok {
      return;
    }
    DebateKeepsUnrefuted(before, 1, Rounds(maxRounds, depth), critic, rebutter, halt);
    ghost var debated := Views(debating);
    assert forall i :: 0 <= i < |debating| ==> debated[i] == debating[i].View();
    hide Views, Rescored;
    var rescored := VerifyAll(debating, byRef, replies, minSupport);
    assert forall i :: 0 <= i < |cs| && cs[i] !in debating ==> cs[i].View() == old(cs[i].View());
    RescoredWhen(cs, debating, debated, byRef, replies, minSupport);
    result := rescored + RefutedAmong(cs);
  }

  lemma RescoredWhen(
      cs: seq<Claim>, contested: seq<Claim>, debated: seq<Standing>, byRef: map<string, Source>,
      replies: seq<Reply>, minSupport: real)
    requires Distinct(cs) && Distinct(contested) && |contested| == |debated| == |replies|
    requires forall v :: v in debated ==> !v.status.Refuted?
    requires forall i :: 0 <= i < |contested| ==> contested[i] in cs
    requires forall i :: 0 <= i < |contested| ==>
      contested[i].View() == Verified(debated[i], contested[i].refs, byRef, replies[i], minSupport)
    requires forall i :: 0 <= i < |cs| && cs[i] !in contested ==> cs[i].View().status.Refuted?
    ensures Rescored(cs, contested, debated, byRef, replies, minSupport)
  {
    hide Verified;
  }

  // ---------------------------------------------------------------------------------------
  // What scores mean
  // ---------------------------------------------------------------------------------------

  predicate Credible(cited: seq<Source>) {
    forall s :: s in cited ==> 0.0 <= s.credibility <= 1.0
  }

  lemma {:induction false} CredibilityAddsUp(cited: seq<Source>)
    requires Credible(cited)
    ensures 0.0 <= TotalCredibility(cited) <= |cited| as real
  {
    if cited != [] {
      CredibilityAddsUp(cited[1..]);
      assert cited[0] in cited;
    }
  }

  lemma QualityInRange(cited: seq<Source>)
    requires cited != [] && Credible(cited)
    ensures 0.0 <= Quality(cited) <= 1.0
  {
    CredibilityAddsUp(cited);
    MeanInRange(TotalCredibility(cited), |cited| as real);
    hide TotalCredibility;
  }

  lemma MeanInRange(total: real, n: real)
    requires 0.0 <= total <= n && n > 0.0
    ensures 0.0 <= total / n <= 1.0
  {
    var mean := total / n;
    assert mean * n == total;
    assert (mean - 1.0) * n == total - n;
  }

  /** Corroboration and quality only ever lower a score: never below 0.48 of it, and not at all
      exactly when two domains agree and every source is fully credible on average. */
  lemma FactorBounds(cited: seq<Source>)
    requires cited != [] && Credible(cited)
    ensures 0.48 <= Factor(cited) <= 1.0
    ensures Factor(cited) == 1.0 <==> |set s | s in cited :: s.domain| >= 2 && Quality(cited) == 1.0
  {
    QualityInRange(cited);
    var domains := set s | s in cited :: s.domain;
    assert cited[0].domain in domains;
    hide Quality;
    var x, y := Independence(cited), 0.6 + 0.4 * Quality(cited);
    assert 0.8 <= x <= 1.0 && 0.6 <= y <= 1.0;
    ProductBounds(x, y);
  }

  lemma {:induction false} CredibilitySums(a: seq<Source>, s: Source)
    ensures TotalCredibility(a + [s]) == TotalCredibility(a) + s.credibility
  {
    if a == [] {
      assert a + [s] == [s] && [s][1..] == [];
    } else {
      CredibilitySums(a[1..], s);
      assert (a + [s])[1..] == a[1..] + [s];
    }
  }

  lemma DomainsOf(cited: seq<Source>)
    requires cited != []
    ensures var domains := set s | s in cited :: s.domain;
            |domains| >= 1 && (|domains| == 1 <==> forall i :: 0 <= i < |cited| ==> cited[i].domain == cited[0].domain)
  {
    var domains := set s | s in cited :: s.domain;
    assert cited[0].domain in domains;
    if forall i :: 0 <= i < |cited| ==> cited[i].domain == cited[0].domain {
      assert domains == {cited[0].domain};
    } else {
      var i :| 0 <= i < |cited| && cited[i].domain != cited[0].domain;
      assert cited[i] in cited && {cited[0].domain, cited[i].domain} <= domains;
      SetOfTwo(cited[0].domain, cited[i].domain, domains);
    }
  }

  lemma SetOfTwo(a: string, b: string, s: set<string>)
    requires a != b && a in s && b in s
    ensures |s| >= 2
  {
    assert |s - {a}| >= 1 by {
      assert b in s - {a};
    }
  }

  lemma DivideBack(x: real, y: real)
    requires y != 0.0
    ensures x / y * y == x
  {}

  lemma QualityIs(cited: seq<Source>)
    requires cited != []
    ensures Quality(cited) * |cited| as real == TotalCredibility(cited)
  {
    DivideBack(TotalCredibility(cited), |cited| as real);
    hide TotalCredibility;
  }

  lemma IndependenceIs(cited: seq<Source>)
    requires cited != []
    ensures Independence(cited)
         == if forall i :: 0 <= i < |cited| ==> cited[i].domain == cited[0].domain then 0.8 else 1.0
  {
    DomainsOf(cited);
  }

  /** How much of a score is kept: less if all sources are of one domain, and more the better
      their credibility is on average. */
  lemma FactorIs(cited: seq<Source>)
    requires cited != []
    ensures Quality(cited) * |cited| as real == TotalCredibility(cited)
    ensures Factor(cited)
         == (if forall i :: 0 <= i < |cited| ==> cited[i].domain == cited[0].domain then 0.8 else 1.0)
          * (0.6 + 0.4 * Quality(cited))
  {
    QualityIs(cited);
    IndependenceIs(cited);
    hide Quality, Independence, TotalCredibility;
  }

  /** The support that a judgement amounts to, to within half a thousandth. */
  lemma JudgedSupport(
      refs: seq<string>, byRef: map<string, Source>, verdict: Option<Verdict>, support: Support, minSupport: real)
    requires Cited(refs, byRef) != [] && !support.Unconvertible?
    ensures var cited := Cited(refs, byRef);
            var kept := Judgement(refs, byRef, Judged(verdict, support), minSupport).1;
            && (support.Infinite? ==> kept == 1.0)
            && (support.Absent? || support.NaN? || support.NegInfinite? ==> kept == 0.0)
            && (support.Number? ==>
                  var raw := support.value * Factor(cited);
                  if raw <= 0.0 then kept == 0.0
                  else if raw >= 1.0 then kept == 1.0
                  else raw - 0.0005 <= kept <= raw + 0.0005)
  {
    hide Cited, Factor;
    assert Round3(0.0) == 0.0 && Round3(1.0) == 1.0;
  }

  lemma NonNegativeProduct(x: real, y: real)
    requires x >= 0.0 && y >= 0.0
    ensures x * y >= 0.0
  {}

  lemma ProductBounds(x: real, y: real)
    requires 0.8 <= x <= 1.0 && 0.6 <= y <= 1.0
    ensures 0.48 <= x * y <= 1.0
    ensures x * y == 1.0 <==> x == 1.0 && y == 1.0
  {
    NonNegativeProduct(1.0 - x, y);
    NonNegativeProduct(x - 0.8, y);
    assert (1.0 - x) * y == y - x * y;
    assert (x - 0.8) * y == x * y - 0.8 * y;
  }

  lemma FloorIsMonotone(a: real, b: real)
    requires a <= b
    ensures a.Floor <= b.Floor
  {}

  lemma RoundingIsMonotone(x: real, y: real)
    requires x <= y
    ensures Round3(x) <= Round3(y)
  {
    var a, b := x * 1000.0 + 0.5, y * 1000.0 + 0.5;
    FloorIsMonotone(a, b);
    var n, m := a.Floor as real, b.Floor as real;
    assert n / 1000.0 <= m / 1000.0;
  }

  lemma LoweredScore(score: real, factor: real)
    requires 0.0 <= score <= 1.0 && 0.0 <= factor <= 1.0
    ensures Score(Number(score), factor) <= score
  {
    var product, rest := score * factor, 1.0 - factor;
    NonNegativeProduct(score, rest);
    assert score * rest == score - product;
    ClampLowers(product, score);
  }

  lemma ClampLowers(x: real, y: real)
    requires x <= y && 0.0 <= y
    ensures Clamp(x) <= y
  {}

  /** The support of a verified claim is no more than the model's own score of it. */
  lemma ModulationOnlyLowers(
      refs: seq<string>, byRef: map<string, Source>, verdict: Option<Verdict>, score: real, minSupport: real)
    requires Cited(refs, byRef) != [] && Credible(Cited(refs, byRef)) && 0.0 <= score <= 1.0
    ensures Judgement(refs, byRef, Judged(verdict, Number(score)), minSupport).1 <= Round3(score)
  {
    hide Factor, Round3, Score, Cited, Quality;
    var factor := Factor(Cited(refs, byRef));
    FactorBounds(Cited(refs, byRef));
    LoweredScore(score, factor);
    RoundingIsMonotone(Score(Number(score), factor), score);
    assert Judgement(refs, byRef, Judged(verdict, Number(score)), minSupport).1
        == Round3(Score(Number(score), factor));
  }

  lemma {:induction false} SeriousPenalty(list: seq<Severity>)
    ensures Penalty(SeriousIn(list)) >= 0.08 * |SeriousIn(list)| as real
  {
    if list != [] {
      SeriousPenalty(list[1..]);
      if list[0].Medium? || list[0].High? {
        var rest := SeriousIn(list[1..]);
        assert SeriousIn(list) == [list[0]] + rest && ([list[0]] + rest)[1..] == rest;
        assert Penalty(SeriousIn(list)) == Weight(list[0]) + Penalty(rest);
      } else {
        assert SeriousIn(list) == SeriousIn(list[1..]);
      }
    }
  }

  /** Every answered challenge costs support, down to nothing at worst. */
  lemma RebuttalCosts(v: Standing, critique: Critique, reply: Rebuttal, round: nat)
    requires Serious(critique) != [] && reply.Rebutted? && v.support >= 0.0
    ensures var w := Contested(v, critique, reply, round);
            && w.rounds == round && (reply.concede ==> w.status.Uncertain?)
            && (w.support == 0.0 || w.support <= v.support - 0.0795)
  {
    SeriousPenalty(if |critique.list| <= MAX_CHALLENGES then critique.list else critique.list[..MAX_CHALLENGES]);
    assert Penalty(Serious(critique)) >= 0.08;
    hide Penalty, Serious, Round3;
    var penalty := Penalty(Serious(critique)) + if reply.concede then 0.15 else 0.0;
    LoweredSupport(v.support, penalty);
  }

  lemma LoweredSupport(support: real, penalty: real)
    requires support >= 0.0 && penalty >= 0.08
    ensures var left := Round3(if support - penalty < 0.0 then 0.0 else support - penalty);
            left == 0.0 || left <= support - 0.0795
  {}

  // ---------------------------------------------------------------------------------------
  // What every run of the stage guarantees
  // ---------------------------------------------------------------------------------------

  predicate InRange(v: Standing, rounds: int) {
    0.0 <= v.support <= 1.0 && (v.rounds == 0 || v.rounds <= rounds)
  }

  lemma {:induction false} PenaltyIsNotNegative(serious: seq<Severity>)
    ensures Penalty(serious) >= 0.0
  {
    if serious != [] {
      PenaltyIsNotNegative(serious[1..]);
    }
  }

  lemma ContestKeepsRange(v: Standing, critique: Critique, reply: Rebuttal, round: nat, rounds: int)
    requires InRange(v, rounds) && round <= rounds
    ensures InRange(Contested(v, critique, reply, round), rounds)
  {
    PenaltyIsNotNegative(Serious(critique));
  }

  lemma {:induction false} DebateKeepsRange(
      vs: seq<Standing>, round: nat, rounds: int, critic: Critic, rebutter: Rebutter, halt: nat -> bool)
    requires forall v :: v in vs ==> InRange(v, rounds)
    requires Debated(vs, round, rounds, critic, rebutter, halt).Some?
    ensures forall v :: v in Debated(vs, round, rounds, critic, rebutter, halt).value ==> InRange(v, rounds)
    decreases rounds - round
  {
    if round <= rounds && !halt(round) && !RoundSettles(|vs|, round, critic) {
      var ws := RoundOf(vs, round, critic, rebutter);
      forall i | 0 <= i < |ws| ensures InRange(ws[i], rounds) {
        ContestKeepsRange(vs[i], critic(round, i), rebutter(round, i), round, rounds);
      }
      DebateKeepsRange(ws, round + 1, rounds, critic, rebutter, halt);
    }
  }

  /** Scores are multiples of a thousandth. */
  predicate OnGrid(x: real) {
    x * 1000.0 == (x * 1000.0).Floor as real
  }

  lemma WholeFloor(n: int)
    ensures (n as real).Floor == n && (n as real + 0.5).Floor == n
  {}

  lemma Thousandths(x: real, n: int)
    requires x * 1000.0 == n as real || x == n as real / 1000.0
    ensures x * 1000.0 == n as real && x == n as real / 1000.0
  {}

  lemma GridOf(x: real, n: int)
    requires x == n as real / 1000.0
    ensures OnGrid(x) && Round3(x) == x
  {
    Thousandths(x, n);
    WholeFloor(n);
    var y := x * 1000.0;
    assert y == n as real && y.Floor == n && (y + 0.5).Floor == n;
  }

  lemma GridDifference(x: real, y: real)
    requires OnGrid(x) && OnGrid(y)
    ensures OnGrid(x - y) && OnGrid(x + y)
  {
    var m, n := (x * 1000.0).Floor, (y * 1000.0).Floor;
    Thousandths(x, m);
    Thousandths(y, n);
    hide OnGrid;
    assert x - y == (m - n) as real / 1000.0;
    assert x + y == (m + n) as real / 1000.0;
    GridOf(x - y, m - n);
    GridOf(x + y, m + n);
  }

  lemma RoundingKeepsGrid(x: real)
    ensures OnGrid(Round3(x))
    ensures OnGrid(x) ==> Round3(x) == x
  {
    GridOf(Round3(x), (x * 1000.0 + 0.5).Floor);
    if OnGrid(x) {
      Thousandths(x, (x * 1000.0).Floor);
      GridOf(x, (x * 1000.0).Floor);
    }
    hide OnGrid, Round3;
  }

  lemma {:induction false} PenaltyOnGrid(serious: seq<Severity>)
    ensures OnGrid(Penalty(serious)) && Penalty(serious) >= 0.0
  {
    if serious != [] {
      PenaltyOnGrid(serious[1..]);
      assert OnGrid(Weight(serious[0]));
      GridDifference(Weight(serious[0]), Penalty(serious[1..]));
    }
  }

  /** Verification and debate keep scores on the grid. */
  lemma ScoresStayOnGrid(
      v: Standing, critique: Critique, rebuttal: Rebuttal, round: nat,
      refs: seq<string>, byRef: map<string, Source>, reply: Reply, minSupport: real)
    requires OnGrid(v.support)
    ensures OnGrid(Contested(v, critique, rebuttal, round).support)
    ensures OnGrid(Verified(v, refs, byRef, reply, minSupport).support)
  {
    hide OnGrid, Round3, Serious, Penalty, Cited, Factor, Score;
    var penalty := if rebuttal.Rebutted? && rebuttal.concede then 0.15 else 0.0;
    var support := v.support - (Penalty(Serious(critique)) + penalty);
    RoundingKeepsGrid(if support < 0.0 then 0.0 else support);
    if Cited(refs, byRef) != [] && reply.Judged? {
      RoundingKeepsGrid(Score(reply.support, Factor(Cited(refs, byRef))));
    }
    GridOf(0.0, 0);
    GridOf(0.3, 300);
  }

  /** The claim was supported at or above the threshold, and after one challenge and its answer
      is still called supported, but below it. */
  predicate BreaksThreshold(v: Standing, critique: Critique, reply: Rebuttal, round: nat, minSupport: real) {
    && v.status.Supported? && v.support >= minSupport
    && Contested(v, critique, reply, round).status.Supported?
    && Contested(v, critique, reply, round).support < minSupport
  }

  /** The threshold is broken exactly when the claim is defended, not conceded, and the weight
      of the serious challenges exceeds its margin. */
  lemma BreaksThresholdIff(v: Standing, critique: Critique, reply: Rebuttal, round: nat, minSupport: real)
    requires v.status.Supported? && OnGrid(v.support) && v.support >= minSupport > 0.0
    ensures BreaksThreshold(v, critique, reply, round, minSupport)
       <==> reply.Rebutted? && !reply.concede && Penalty(Serious(critique)) > v.support - minSupport
  {
    hide Serious, OnGrid, Round3;
    var serious := Serious(critique);
    PenaltyOnGrid(serious);
    assert Penalty([]) == 0.0;
    if serious != [] && reply.Rebutted? && !reply.concede {
      var support := v.support - Penalty(serious);
      GridDifference(v.support, Penalty(serious));
      RoundingKeepsGrid(support);
      NothingRoundsToNothing();
      assert Contested(v, critique, reply, round).support == if support < 0.0 then 0.0 else support;
    }
  }

  lemma NothingRoundsToNothing()
    ensures Round3(0.0) == 0.0
  {}

  /** Such a claim exists for every threshold between nothing and one, and for no other. */
  lemma PenaltyBreaksThreshold(minSupport: real)
    ensures (exists v: Standing, critique: Critique, reply: Rebuttal ::
        InRange(v, 1) && OnGrid(v.support) && BreaksThreshold(v, critique, reply, 1, minSupport))
       <==> 0.0 < minSupport <= 1.0
  {
    forall v: Standing, critique: Critique, reply: Rebuttal
      | InRange(v, 1) && BreaksThreshold(v, critique, reply, 1, minSupport)
      ensures 0.0 < minSupport <= 1.0
    {
      ContestKeepsRange(v, critique, reply, 1, 1);
    }
    if 0.0 < minSupport <= 1.0 {
      var n := -(-minSupport * 1000.0).Floor;
      assert n as real / 1000.0 * 1000.0 == n as real;
      var v := Standing("", Supported, n as real / 1000.0, 0, []);
      var critique, reply := Challenges([Medium]), Rebutted("", None, false);
      assert Serious(critique) == [Medium];
      assert Penalty([Medium]) == 0.08;
      assert InRange(v, 1) && OnGrid(v.support) && v.support - minSupport < 0.001;
      BreaksThresholdIff(v, critique, reply, 1, minSupport);
    }
  }

  /** The debate refutes nothing: a concession only makes a claim uncertain. */
  lemma {:induction false} DebateKeepsUnrefuted(
      vs: seq<Standing>, round: nat, rounds: int, critic: Critic, rebutter: Rebutter, halt: nat -> bool)
    requires forall v :: v in vs ==> !v.status.Refuted?
    requires Debated(vs, round, rounds, critic, rebutter, halt).Some?
    ensures forall v :: v in Debated(vs, round, rounds, critic, rebutter, halt).value ==> !v.status.Refuted?
    decreases rounds - round
  {
    if round <= rounds && !halt(round) && !RoundSettles(|vs|, round, critic) {
      var ws := RoundOf(vs, round, critic, rebutter);
      forall i | 0 <= i < |ws| ensures !ws[i].status.Refuted? {
        assert vs[i] in vs;
      }
      DebateKeepsUnrefuted(ws, round + 1, rounds, critic, rebutter, halt);
    }
  }

  predicate SameVerdict(v: Standing, w: Standing) {
    v.status == w.status && v.support == w.support
  }

  /** A verification that returns overwrites status and support, so nothing the debate did to
      them is left; only one that raises lets a conceded status or a penalty stand. */
  lemma RescoringForgetsDebateIff(refs: seq<string>, byRef: map<string, Source>, reply: Reply, minSupport: real)
    ensures (forall v, w :: SameVerdict(
        Verified(v, refs, byRef, reply, minSupport), Verified(w, refs, byRef, reply, minSupport)))
       <==> !Raises(refs, byRef, reply)
  {
    if Raises(refs, byRef, reply) {
      var v := Standing("", Uncertain, 0.0, 0, []);
      assert !SameVerdict(
          Verified(v, refs, byRef, reply, minSupport), Verified(v.(support := 1.0), refs, byRef, reply, minSupport));
    }
  }

  lemma VerifiedInRange(
      v: Standing, refs: seq<string>, byRef: map<string, Source>, reply: Reply, minSupport: real, rounds: int)
    requires InRange(v, rounds)
    ensures InRange(Verified(v, refs, byRef, reply, minSupport), rounds)
    ensures !Raises(refs, byRef, reply) && Verified(v, refs, byRef, reply, minSupport).status.Supported?
       ==> Verified(v, refs, byRef, reply, minSupport).support >= minSupport
  {}

  /** Every claim returned is one of those given, scored within range, and supported only at
      or above the threshold. */
  lemma ReturnedClaimIsSound(
      cs: seq<Claim>, contested: seq<Claim>, debated: seq<Standing>, byRef: map<string, Source>,
      replies: seq<Reply>, minSupport: real, rounds: int, c: Claim)
    requires Rescored(cs, contested, debated, byRef, replies, minSupport)
    requires forall v :: v in debated ==> InRange(v, rounds)
    requires forall i :: 0 <= i < |cs| && cs[i] !in contested ==> InRange(cs[i].View(), rounds)
    requires c in Survivors(contested, byRef, replies) + RefutedAmong(cs)
    ensures c in cs && InRange(c.View(), rounds) && (c.status.Supported? ==> c.support >= minSupport)
  {
    hide InRange, Verified, Raises;
    RefutedCounts(cs, c);
    SurvivorsAreListed(contested, byRef, replies, c);
    if c in Survivors(contested, byRef, replies) {
      var i :| 0 <= i < |contested| && contested[i] == c && !Raises(c.refs, byRef, replies[i]);
      VerifiedInRange(debated[i], c.refs, byRef, replies[i], minSupport, rounds);
    } else if c in contested {
      var i :| 0 <= i < |contested| && contested[i] == c;
      VerifiedInRange(debated[i], c.refs, byRef, replies[i], minSupport, rounds);
    }
  }

  /** How often a claim is returned: once if it was rescored, and once more if it is refuted.
      So a claim that ends unrefuted is there exactly once unless its rescoring raised, and one
      that the rescoring refutes is there twice. */
  lemma ReturnedCounts(
      cs: seq<Claim>, contested: seq<Claim>, debated: seq<Standing>, byRef: map<string, Source>,
      replies: seq<Reply>, minSupport: real, c: Claim)
    requires Rescored(cs, contested, debated, byRef, replies, minSupport) && c in cs
    ensures multiset(Survivors(contested, byRef, replies) + RefutedAmong(cs))[c]
         == (if Survives(contested, byRef, replies, c) then 1 else 0) + (if c.status.Refuted? then 1 else 0)
  {
    RefutedCounts(cs, c);
    SurvivorCounts(contested, byRef, replies, c);
    hide Survives, Survivors, RefutedAmong, Verified;
  }

  /** The reply that the final rescoring gets decides how often a contested claim is returned. */
  function Times(refs: seq<string>, byRef: map<string, Source>, reply: Reply): nat {
    if Cited(refs, byRef) == [] then 2
    else match reply
      case NoReply => 1
      case Malformed => 0
      case Judged(verdict, support) =>
        (if support.Unconvertible? then 0 else 1) + (if verdict == Some(Refuted) then 1 else 0)
  }

  lemma VerifiedTimes(
      v: Standing, refs: seq<string>, byRef: map<string, Source>, reply: Reply, minSupport: real)
    requires !v.status.Refuted?
    ensures Times(refs, byRef, reply)
         == (if Raises(refs, byRef, reply) then 0 else 1)
          + (if Verified(v, refs, byRef, reply, minSupport).status.Refuted? then 1 else 0)
  {
    hide Cited, Factor, Score, Round3;
  }

  lemma SurvivesIff(cs: seq<Claim>, byRef: map<string, Source>, replies: seq<Reply>, i: nat)
    requires Distinct(cs) && |cs| == |replies| && i < |cs|
    ensures Survives(cs, byRef, replies, cs[i]) <==> !Raises(cs[i].refs, byRef, replies[i])
  {
    hide Raises;
  }

  lemma ContestedTimes(
      cs: seq<Claim>, contested: seq<Claim>, debated: seq<Standing>, byRef: map<string, Source>,
      replies: seq<Reply>, minSupport: real, i: nat)
    requires Rescored(cs, contested, debated, byRef, replies, minSupport) && i < |contested|
    ensures multiset(Survivors(contested, byRef, replies) + RefutedAmong(cs))[contested[i]]
         == Times(contested[i].refs, byRef, replies[i])
  {
    var c := contested[i];
    ReturnedCounts(cs, contested, debated, byRef, replies, minSupport, c);
    VerifiedTimes(debated[i], c.refs, byRef, replies[i], minSupport);
    SurvivesIff(contested, byRef, replies, i);
    hide *;
  }

  /** A contested claim is lost exactly when the reply is of the wrong shape, or its score does
      not convert and its verdict is not a refutation. */
  lemma MissingIff(
      cs: seq<Claim>, contested: seq<Claim>, debated: seq<Standing>, byRef: map<string, Source>,
      replies: seq<Reply>, minSupport: real, i: nat)
    requires Rescored(cs, contested, debated, byRef, replies, minSupport) && i < |contested|
    ensures contested[i] !in Survivors(contested, byRef, replies) + RefutedAmong(cs) <==>
      && Cited(contested[i].refs, byRef) != []
      && (replies[i].Malformed?
          || (replies[i].Judged? && replies[i].support.Unconvertible? && replies[i].verdict != Some(Refuted)))
  {
    ContestedTimes(cs, contested, debated, byRef, replies, minSupport, i);
    hide Rescored, Survivors, RefutedAmong;
  }

  /** A contested claim is listed twice exactly when it cites nothing, or the reply refutes it
      with a score that converts. */
  lemma ListedTwiceIff(
      cs: seq<Claim>, contested: seq<Claim>, debated: seq<Standing>, byRef: map<string, Source>,
      replies: seq<Reply>, minSupport: real, i: nat)
    requires Rescored(cs, contested, debated, byRef, replies, minSupport) && i < |contested|
    ensures multiset(Survivors(contested, byRef, replies) + RefutedAmong(cs))[contested[i]] == 2 <==>
      || Cited(contested[i].refs, byRef) == []
      || (replies[i].Judged? && !replies[i].support.Unconvertible? && replies[i].verdict == Some(Refuted))
  {
    ContestedTimes(cs, contested, debated, byRef, replies, minSupport, i);
    hide Rescored, Survivors, RefutedAmong;
  }
}
