/** Claims, their verification against cited sources, and the adversarial debate, with every
    reply of the model left open. `Standing` is the part of a claim that the agents update.
 */
module Claims {
  import opened Numerals
  import opened Options
  import opened Sources

  const MAX_CHALLENGES := 3
  const MIN_REVISION := 15

  datatype Verdict = Supported | Uncertain | Refuted

  datatype Standing = Standing(
    text: string, status: Verdict, support: real, rounds: nat, rebuttals: seq<string>)

  class Claim {
    const refs: seq<string>
    var text: string
    var status: Verdict
    var support: real
    var rounds: nat
    var rebuttals: seq<string>

    function View(): Standing
      reads this
    {
      Standing(text, status, support, rounds, rebuttals)
    }

    constructor (text: string, refs: seq<string>)
      ensures this.refs == refs && View() == Standing(text, Uncertain, 0.0, 0, [])
    {
      this.refs := refs;
      this.text := text;
      status, support, rounds, rebuttals := Uncertain, 0.0, 0, [];
    }
  }

  predicate Distinct(cs: seq<Claim>) {
    forall i, j :: 0 <= i < j < |cs| ==> cs[i] != cs[j]
  }

  // ---------------------------------------------------------------------------------------
  // Scores
  // ---------------------------------------------------------------------------------------

  function Clamp(x: real): (r: real)
    ensures 0.0 <= r <= 1.0
  {
    if x < 0.0 then 0.0 else if x > 1.0 then 1.0 else x
  }

  /** Rounding to three decimals. */
  function Round3(x: real): (r: real)
    ensures 0.0 <= x <= 1.0 ==> 0.0 <= r <= 1.0
  {
    (x * 1000.0 + 0.5).Floor as real / 1000.0
  }

  function Cited(refs: seq<string>, byRef: map<string, Source>): seq<Source> {
    if refs == [] then []
    else (if refs[0] in byRef then [byRef[refs[0]]] else []) + Cited(refs[1..], byRef)
  }

  /** No reference of the claim names a source. */
  predicate Uncited(refs: seq<string>, byRef: map<string, Source>) {
    forall r :: r in refs ==> r !in byRef
  }

  lemma CitedFirst(refs: seq<string>, byRef: map<string, Source>)
    requires refs != []
    ensures var rest := Cited(refs[1..], byRef);
            Cited(refs, byRef) == if refs[0] in byRef then [byRef[refs[0]]] + rest else rest
  {}

  lemma {:induction false} CitedIff(refs: seq<string>, byRef: map<string, Source>)
    ensures Cited(refs, byRef) == [] <==> Uncited(refs, byRef)
    ensures forall s ::
      s in Cited(refs, byRef) <==> exists i :: 0 <= i < |refs| && refs[i] in byRef && byRef[refs[i]] == s
    ensures (forall r :: r in refs ==> r in byRef) ==>
      |Cited(refs, byRef)| == |refs| && forall i :: 0 <= i < |refs| ==> Cited(refs, byRef)[i] == byRef[refs[i]]
    decreases |refs|
  {
    if refs != [] {
      CitedIff(refs[1..], byRef);
      CitedFirst(refs, byRef);
      hide Cited;
      assert refs == [refs[0]] + refs[1..];
      assert Uncited(refs, byRef) <==> refs[0] !in byRef && Uncited(refs[1..], byRef);
      forall s | s in Cited(refs, byRef)
        ensures exists i :: 0 <= i < |refs| && refs[i] in byRef && byRef[refs[i]] == s
      {
        if s in Cited(refs[1..], byRef) {
          var i :| 0 <= i < |refs| - 1 && refs[1..][i] in byRef && byRef[refs[1..][i]] == s;
          assert refs[i + 1] in byRef && byRef[refs[i + 1]] == s;
        } else {
          assert refs[0] in byRef && byRef[refs[0]] == s;
        }
      }
      forall i | 0 < i < |refs| && refs[i] in byRef ensures byRef[refs[i]] in Cited(refs[1..], byRef) {
        assert refs[1..][i - 1] == refs[i];
      }
    }
  }

  function TotalCredibility(cited: seq<Source>): real {
    if cited == [] then 0.0 else cited[0].credibility + TotalCredibility(cited[1..])
  }

  function Independence(cited: seq<Source>): real {
    var x := 0.6 + 0.2 * |set s | s in cited :: s.domain| as real;
    if x > 1.0 then 1.0 else x
  }

  function Quality(cited: seq<Source>): real
    requires cited != []
  {
    TotalCredibility(cited) / |cited| as real
  }

  /** The support field of a reply: absent, a number, one of the values that JSON numbers
      decode to besides, or something that does not convert. */
  datatype Support = Absent | Number(value: real) | NaN | Infinite | NegInfinite | Unconvertible

  /** A reply of the verifier's model: none at all, one of the wrong shape, or a judgement with
      a verdict that may be none of the three. */
  datatype Reply = NoReply | Malformed | Judged(verdict: Option<Verdict>, support: Support)

  /** The clamped score; NaN compares false and so clamps to nothing. */
  function Score(support: Support, factor: real): real {
    match support
    case Number(x) => Clamp(x * factor)
    case Infinite => 1.0
    case _ => 0.0
  }

  function Factor(cited: seq<Source>): real
    requires cited != []
  {
    Independence(cited) * (0.6 + 0.4 * Quality(cited))
  }

  /** The reply makes the verification of a claim raise; the claim then leaves the results. */
  predicate Raises(refs: seq<string>, byRef: map<string, Source>, reply: Reply) {
    Cited(refs, byRef) != [] && (reply.Malformed? || (reply.Judged? && reply.support.Unconvertible?))
  }

  function StatusOf(verdict: Option<Verdict>): Verdict {
    if verdict.Some? then verdict.value else Uncertain
  }

  /** Status and support after a verification that does not raise. */
  function Judgement(refs: seq<string>, byRef: map<string, Source>, reply: Reply, minSupport: real)
    : (Verdict, real)
    requires !Raises(refs, byRef, reply)
  {
    var cited := Cited(refs, byRef);
    if cited == [] then (Refuted, 0.0)
    else if reply.NoReply? then (Uncertain, 0.3)
    else
      var support := Round3(Score(reply.support, Factor(cited)));
      var status := StatusOf(reply.verdict);
      (if status.Supported? && support < minSupport then Uncertain else status, support)
  }

  /** Status and support after any verification: one that raises late has set the status. */
  function Verified(v: Standing, refs: seq<string>, byRef: map<string, Source>, reply: Reply, minSupport: real)
    : Standing
  {
    if !Raises(refs, byRef, reply) then
      var (status, support) := Judgement(refs, byRef, reply, minSupport);
      v.(status := status, support := support)
    else if reply.Judged? then v.(status := StatusOf(reply.verdict))
    else v
  }

  /** The claims whose verification returned. */
  function Survivors(cs: seq<Claim>, byRef: map<string, Source>, replies: seq<Reply>): seq<Claim>
    requires |cs| == |replies|
  {
    if cs == [] then []
    else
      var n := |cs| - 1;
      Survivors(cs[..n], byRef, replies[..n])
      + if Raises(cs[n].refs, byRef, replies[n]) then [] else [cs[n]]
  }

  /** `_verify_one` on one claim; `ok` is false when it raises. */
  method VerifyOne(c: Claim, byRef: map<string, Source>, reply: Reply, minSupport: real) returns (ok: bool)
    modifies c
    ensures ok <==> !Raises(c.refs, byRef, reply)
    ensures c.View() == Verified(old(c.View()), c.refs, byRef, reply, minSupport)
    ensures c.text == old(c.text) && c.rounds == old(c.rounds) && c.rebuttals == old(c.rebuttals)
    ensures Uncited(c.refs, byRef) ==> ok && c.status.Refuted? && c.support == 0.0
    ensures !Uncited(c.refs, byRef) ==>
      && (ok <==> reply.NoReply? || (reply.Judged? && !reply.support.Unconvertible?))
      && (reply.NoReply? ==> c.status.Uncertain? && c.support == 0.3)
      && (reply.Malformed? ==> c.status == old(c.status) && c.support == old(c.support))
      && (reply.Judged? ==> (c.status.Refuted? <==> reply.verdict == Some(Refuted)))
      && (reply.Judged? && ok ==>
            (c.status.Supported? <==> reply.verdict == Some(Supported) && c.support >= minSupport))
      && (reply.Judged? && !ok ==>
            c.support == old(c.support) && (c.status.Supported? <==> reply.verdict == Some(Supported)))
  {
    CitedIff(c.refs, byRef);
    var cited := Cited(c.refs, byRef);
    if cited == [] {
      c.status, c.support := Refuted, 0.0;
      return true;
    }
    if reply.NoReply? {
      c.status, c.support := Uncertain, 0.3;
      return true;
    }
    if reply.Malformed? {
      return false;
    }
    c.status := StatusOf(reply.verdict);
    if reply.support.Unconvertible? {
      return false;
    }
    c.support := Round3(Score(reply.support, Factor(cited)));
    if c.status == Supported && c.support < minSupport {
      c.status := Uncertain;
    }
    return true;
  }

  /** `VerifierAgent.run`: every claim is verified, those that raise are left out. */
  method VerifyAll(cs: seq<Claim>, byRef: map<string, Source>, replies: seq<Reply>, minSupport: real)
    returns (verified: seq<Claim>)
    requires |cs| == |replies| && Distinct(cs)
    modifies cs
    ensures verified == Survivors(cs, byRef, replies)
    ensures forall i :: 0 <= i < |cs| ==>
      cs[i].View() == Verified(old(cs[i].View()), cs[i].refs, byRef, replies[i], minSupport)
    ensures forall i :: 0 <= i < |cs| ==> cs[i].rounds == old(cs[i].rounds)
  {
    hide Verified, Raises;
    verified := [];
    for i := 0 to |cs|
      invariant verified == Survivors(cs[..i], byRef, replies[..i])
      invariant forall j :: 0 <= j < i ==>
        cs[j].View() == Verified(old(cs[j].View()), cs[j].refs, byRef, replies[j], minSupport)
      invariant forall j :: i <= j < |cs| ==> cs[j].View() == old(cs[j].View())
      invariant forall j :: 0 <= j < |cs| ==> cs[j].rounds == old(cs[j].rounds)
    {
      var ok := VerifyOne(cs[i], byRef, replies[i], minSupport);
      assert cs[..i + 1][..i] == cs[..i] && replies[..i + 1][..i] == replies[..i];
      if ok {
        verified := verified + [cs[i]];
      }
    }
    assert cs[..|cs|] == cs && replies[..|cs|] == replies;
  }

  // ---------------------------------------------------------------------------------------
  // Debate
  // ---------------------------------------------------------------------------------------

  datatype Severity = Low | Medium | High | Other

  /** What the critic says: nothing because the call failed, something of the wrong shape, or
      challenges. */
  datatype Critique = NoCritique | BadCritique | Challenges(list: seq<Severity>)

  /** The analyst's answer, with the texts already stripped. */
  datatype Rebuttal = NoRebuttal | BadRebuttal | Rebutted(response: string, revised: Option<string>, concede: bool)

  /** The replies of the model, by round and by position among the contested claims. */
  type Critic = (nat, nat) -> Critique
  type Rebutter = (nat, nat) -> Rebuttal

  function Weight(s: Severity): real {
    match s
    case Medium => 0.08
    case High => 0.2
    case _ => 0.02
  }

  function SeriousIn(list: seq<Severity>): seq<Severity> {
    if list == [] then []
    else (if list[0].Medium? || list[0].High? then [list[0]] else []) + SeriousIn(list[1..])
  }

  function Serious(c: Critique): seq<Severity> {
    if !c.Challenges? then []
    else SeriousIn(if |c.list| <= MAX_CHALLENGES then c.list else c.list[..MAX_CHALLENGES])
  }

  function Penalty(serious: seq<Severity>): real {
    if serious == [] then 0.0 else Weight(serious[0]) + Penalty(serious[1..])
  }

  lemma {:induction false} PenaltyIs(list: seq<Severity>)
    ensures var medium, high := multiset(list)[Medium], multiset(list)[High];
            && medium + high <= |list|
            && Penalty(list) == 0.08 * medium as real + 0.2 * high as real + 0.02 * (|list| - medium - high) as real
  {
    if list != [] {
      PenaltyIs(list[1..]);
      assert list == [list[0]] + list[1..];
      assert multiset(list) == multiset{list[0]} + multiset(list[1..]);
    }
  }

  /** Something medium or high is among the first three challenges. */
  predicate Challenged(critique: Critique) {
    critique.Challenges? &&
    exists k :: 0 <= k < |critique.list| && k < 3 && (critique.list[k].Medium? || critique.list[k].High?)
  }

  lemma {:induction false} SeriousInIs(list: seq<Severity>)
    ensures forall x :: multiset(SeriousIn(list))[x] == if x.Medium? || x.High? then multiset(list)[x] else 0
    decreases |list|
  {
    if list != [] {
      SeriousInIs(list[1..]);
      assert list == [list[0]] + list[1..];
      SeriousInFirst(list);
      hide SeriousIn;
    }
  }

  lemma SeriousInFirst(list: seq<Severity>)
    requires list != []
    ensures SeriousIn(list) == (if list[0].Medium? || list[0].High? then [list[0]] else []) + SeriousIn(list[1..])
  {}

  /** The serious challenges are the medium and high ones among the first three. */
  lemma SeriousIs(critique: Critique)
    ensures Serious(critique) != [] <==> Challenged(critique)
    ensures critique.Challenges? ==>
      var few := critique.list[..if |critique.list| <= 3 then |critique.list| else 3];
      forall x :: multiset(Serious(critique))[x] == if x.Medium? || x.High? then multiset(few)[x] else 0
  {
    if critique.Challenges? {
      var few := critique.list[..if |critique.list| <= 3 then |critique.list| else 3];
      SeriousInIs(few);
      assert Serious(critique) == SeriousIn(few) by {
        assert |critique.list| <= 3 ==> few == critique.list;
      }
      hide SeriousIn, Serious;
      SomeSeriousIff(SeriousIn(few), few);
      assert forall k :: 0 <= k < |few| ==> few[k] == critique.list[k];
    }
  }

  lemma SomeSeriousIff(serious: seq<Severity>, list: seq<Severity>)
    requires forall x :: multiset(serious)[x] == if x.Medium? || x.High? then multiset(list)[x] else 0
    ensures serious != [] <==> exists k :: 0 <= k < |list| && (list[k].Medium? || list[k].High?)
  {
    if serious != [] {
      var x := serious[0];
      assert x in multiset(serious);
      assert x in multiset(list);
      var k :| 0 <= k < |list| && list[k] == x;
    }
    if k :| 0 <= k < |list| && (list[k].Medium? || list[k].High?) {
      assert list[k] in multiset(list);
      assert multiset(serious)[list[k]] > 0;
    }
  }

  function Tag(round: nat, response: string): string {
    "R" + Decimal(round) + ": " + response
  }

  /** The effect of a rebuttal on a claim; one of the wrong shape raises after the round is noted. */
  function Rebuffed(v: Standing, serious: seq<Severity>, reply: Rebuttal, round: nat): Standing {
    if reply.NoRebuttal? then v
    else if reply.BadRebuttal? then v.(rounds := round)
    else
      var penalty := Penalty(serious) + if reply.concede then 0.15 else 0.0;
      var support := v.support - penalty;
      Standing(
        if reply.revised.Some? && |reply.revised.value| > MIN_REVISION then reply.revised.value else v.text,
        if reply.concede then Uncertain else v.status,
        Round3(if support < 0.0 then 0.0 else support),
        round,
        if reply.response != "" then v.rebuttals + [Tag(round, reply.response)] else v.rebuttals)
  }

  method Rebut(c: Claim, serious: seq<Severity>, reply: Rebuttal, round: nat) returns (ok: bool)
    modifies c
    ensures ok <==> !reply.BadRebuttal?
    ensures c.View() == Rebuffed(old(c.View()), serious, reply, round)
    ensures c.rounds == if reply.NoRebuttal? then old(c.rounds) else round
    ensures !reply.Rebutted? ==>
      c.text == old(c.text) && c.status == old(c.status) && c.support == old(c.support)
      && c.rebuttals == old(c.rebuttals)
    ensures reply.Rebutted? ==>
      && c.status == (if reply.concede then Uncertain else old(c.status))
      && c.text == (if reply.revised.Some? && |reply.revised.value| > 15 then reply.revised.value else old(c.text))
      && c.rebuttals == (if reply.response == "" then old(c.rebuttals)
                         else old(c.rebuttals) + ["R" + Decimal(round) + ": " + reply.response])
    ensures reply.Rebutted? ==>
      var medium, high := multiset(serious)[Medium], multiset(serious)[High];
      var left := old(c.support) - 0.08 * medium as real - 0.2 * high as real
                  - 0.02 * (|serious| - medium - high) as real - if reply.concede then 0.15 else 0.0;
      if left < 0.0 then c.support == 0.0 else left - 0.0005 <= c.support <= left + 0.0005
  {
    PenaltyIs(serious);
    if reply.NoRebuttal? {
      return true;
    }
    c.rounds := round;
    if reply.BadRebuttal? {
      return false;
    }
    if reply.response != "" {
      c.rebuttals := c.rebuttals + [Tag(round, reply.response)];
    }
    if reply.revised.Some? && |reply.revised.value| > MIN_REVISION {
      c.text := reply.revised.value;
    }
    var penalty := Penalty(serious);
    if reply.concede {
      penalty := penalty + 0.15;
      c.status := Uncertain;
    }
    var support := c.support - penalty;
    c.support := Round3(if support < 0.0 then 0.0 else support);
    return true;
  }

  /** One claim in one round. */
  function Contested(v: Standing, critique: Critique, reply: Rebuttal, round: nat): Standing {
    if Serious(critique) == [] then v else Rebuffed(v, Serious(critique), reply, round)
  }

  predicate ContestRaises(critique: Critique, reply: Rebuttal) {
    critique.BadCritique? || (Serious(critique) != [] && reply.BadRebuttal?)
  }

  predicate RoundRaises(n: nat, round: nat, critic: Critic, rebutter: Rebutter) {
    exists i :: 0 <= i < n && ContestRaises(critic(round, i), rebutter(round, i))
  }

  predicate RoundSettles(n: nat, round: nat, critic: Critic) {
    forall i :: 0 <= i < n ==> Serious(critic(round, i)) == []
  }

  function RoundOf(vs: seq<Standing>, round: nat, critic: Critic, rebutter: Rebutter): (ws: seq<Standing>)
    ensures |ws| == |vs|
  {
    seq(|vs|, i requires 0 <= i < |vs| => Contested(vs[i], critic(round, i), rebutter(round, i), round))
  }

  /** The rounds from `round` on, or nothing when one of them raises. */
  function Debated(
      vs: seq<Standing>, round: nat, rounds: int, critic: Critic, rebutter: Rebutter, halt: nat -> bool)
    : (ws: Option<seq<Standing>>)
    ensures ws.Some? ==> |ws.value| == |vs|
    decreases rounds - round
  {
    if round > rounds || halt(round) then Some(vs)
    else if RoundRaises(|vs|, round, critic, rebutter) then None
    else if RoundSettles(|vs|, round, critic) then Some(vs)
    else Debated(RoundOf(vs, round, critic, rebutter), round + 1, rounds, critic, rebutter, halt)
  }

  function Views(cs: seq<Claim>): (vs: seq<Standing>)
    reads cs
    ensures |vs| == |cs|
  {
    seq(|cs|, i requires 0 <= i < |cs| reads cs => cs[i].View())
  }

  function Unrefuted(cs: seq<Claim>): seq<Claim>
    reads cs
  {
    if cs == [] then []
    else Unrefuted(cs[..|cs| - 1]) + if cs[|cs| - 1].status.Refuted? then [] else [cs[|cs| - 1]]
  }

  function RefutedAmong(cs: seq<Claim>): seq<Claim>
    reads cs
  {
    if cs == [] then []
    else RefutedAmong(cs[..|cs| - 1]) + if cs[|cs| - 1].status.Refuted? then [cs[|cs| - 1]] else []
  }
}
