/** The claim pipeline -- extraction, de-duplication, verification, debate -- for every reply of
    the model at every point where it is asked.
 */
module Pipeline {
  import opened Options
  import opened Sources
  import opened Claims
  import opened Debate

  const MAX_DRAFTS := 4

  /** One entry of an extraction reply, its text stripped. */
  datatype Draft = Draft(text: string, refs: seq<string>)

  datatype Extraction = Failed | Extracted(drafts: seq<Draft>)

  function ValidRefs(sources: seq<Source>): set<string> {
    set s | s in sources :: s.ref
  }

  function Within(refs: seq<string>, valid: set<string>): seq<string> {
    if refs == [] then []
    else (if refs[0] in valid then [refs[0]] else []) + Within(refs[1..], valid)
  }

  /** What becomes of the drafts: refs that name no source go, then what has no text or no refs. */
  function Accepted(drafts: seq<Draft>, valid: set<string>): seq<Draft> {
    if drafts == [] then []
    else
      var n := |drafts| - 1;
      var refs := Within(drafts[n].refs, valid);
      Accepted(drafts[..n], valid)
      + if drafts[n].text == "" || refs == [] then [] else [Draft(drafts[n].text, refs)]
  }

  function FirstFew(drafts: seq<Draft>): seq<Draft> {
    if |drafts| <= MAX_DRAFTS then drafts else drafts[..MAX_DRAFTS]
  }

  predicate Grounded(refs: seq<string>, sources: seq<Source>) {
    refs != [] && forall r :: r in refs ==> r in ValidRefs(sources)
  }

  function New(text: string): Standing {
    Standing(text, Uncertain, 0.0, 0, [])
  }

  /** The claims are new and say what the drafts say. */
  predicate Carries(cs: seq<Claim>, drafts: seq<Draft>)
    reads cs
  {
    |cs| == |drafts|
    && forall i :: 0 <= i < |cs| ==> cs[i].refs == drafts[i].refs && cs[i].View() == New(drafts[i].text)
  }

  lemma {:induction false} WithinMembers(refs: seq<string>, valid: set<string>)
    ensures forall r :: r in Within(refs, valid) <==> r in refs && r in valid
  {
    if refs != [] {
      WithinMembers(refs[1..], valid);
      assert refs == [refs[0]] + refs[1..];
    }
  }

  predicate AllGrounded(drafts: seq<Draft>, sources: seq<Source>) {
    forall d :: d in drafts ==> d.text != "" && Grounded(d.refs, sources)
  }

  lemma {:induction false} AcceptedAreGrounded(drafts: seq<Draft>, sources: seq<Source>)
    ensures AllGrounded(Accepted(drafts, ValidRefs(sources)), sources)
  {
    if drafts != [] {
      var n := |drafts| - 1;
      AcceptedAreGrounded(drafts[..n], sources);
      WithinMembers(drafts[n].refs, ValidRefs(sources));
    }
  }

  lemma AcceptedNext(drafts: seq<Draft>, i: nat, valid: set<string>)
    requires i < |drafts|
    ensures var refs := Within(drafts[i].refs, valid);
            Accepted(drafts[..i + 1], valid)
              == if drafts[i].text == "" || refs == [] then Accepted(drafts[..i], valid)
                 else Accepted(drafts[..i], valid) + [Draft(drafts[i].text, refs)]
  {
    assert drafts[..i + 1][..i] == drafts[..i];
  }

  lemma CarriesOne(c: Claim, draft: Draft)
    requires c.refs == draft.refs && c.View() == New(draft.text)
    ensures Carries([c], [draft]) && Distinct([c])
  {}

  lemma CarriesBoth(a: seq<Claim>, b: seq<Claim>, da: seq<Draft>, db: seq<Draft>)
    requires Carries(a, da) && Carries(b, db)
    ensures Carries(a + b, da + db)
  {}

  lemma DistinctBoth(a: seq<Claim>, b: seq<Claim>)
    requires Distinct(a) && Distinct(b) && forall i :: 0 <= i < |b| ==> b[i] !in a
    ensures Distinct(a + b)
  {}

  method AddClaim(cs: seq<Claim>, text: string, refs: seq<string>, ghost drafts: seq<Draft>)
    returns (more: seq<Claim>)
    requires Carries(cs, drafts) && Distinct(cs)
    ensures Carries(more, drafts + [Draft(text, refs)]) && Distinct(more)
    ensures forall c :: c in more ==> c in cs || fresh(c)
  {
    var c := new Claim(text, refs);
    assert c !in cs;
    CarriesOne(c, Draft(text, refs));
    hide Carries, Distinct;
    CarriesBoth(cs, [c], drafts, [Draft(text, refs)]);
    DistinctBoth(cs, [c]);
    more := cs + [c];
  }

  /** One draft of the loop in `_extract`: kept with its known references, or dropped. */
  method TakeDraft(cs: seq<Claim>, draft: Draft, valid: set<string>, ghost drafts: seq<Draft>)
    returns (more: seq<Claim>)
    requires Carries(cs, drafts) && Distinct(cs)
    ensures var refs := Within(draft.refs, valid);
            Carries(more, if draft.text == "" || refs == [] then drafts else drafts + [Draft(draft.text, refs)])
    ensures Distinct(more) && forall c :: c in more ==> c in cs || fresh(c)
  {
    hide Within;
    var refs := Within(draft.refs, valid);
    if draft.text == "" || refs == [] {
      return cs;
    }
    more := AddClaim(cs, draft.text, refs, drafts);
  }

  /** `AnalystAgent._extract` on a reply that parsed. */
  method Extract(drafts: seq<Draft>, sources: seq<Source>) returns (cs: seq<Claim>)
    ensures Carries(cs, Accepted(FirstFew(drafts), ValidRefs(sources)))
    ensures Distinct(cs) && forall i :: 0 <= i < |cs| ==> fresh(cs[i])
  {
    var few, valid := FirstFew(drafts), ValidRefs(sources);
    cs := [];
    assert Accepted(few[..0], valid) == [] && Carries(cs, []) && Distinct(cs);
    hide Accepted, Within, FirstFew, ValidRefs, Carries, Distinct;
    for i := 0 to |few|
      invariant Carries(cs, Accepted(few[..i], valid))
      invariant Distinct(cs) && forall c :: c in cs ==> fresh(c)
    {
      AcceptedNext(few, i, valid);
      cs := TakeDraft(cs, few[i], valid, Accepted(few[..i], valid));
    }
    assert few[..|few|] == few;
    assert forall i :: 0 <= i < |cs| ==> cs[i] in cs;
  }

  /** At most four drafts of an extraction are looked at. */
  lemma FirstFour(drafts: seq<Draft>)
    ensures FirstFew(drafts) <= drafts && |FirstFew(drafts)| == if |drafts| <= 4 then |drafts| else 4
  {}

  // ---------------------------------------------------------------------------------------
  // De-duplication
  // ---------------------------------------------------------------------------------------

  /** The indices below `n` that have the property, in order. */
  function IndicesWhere(n: nat, p: nat -> bool): (at: seq<nat>)
    ensures forall k :: 0 <= k < |at| ==> at[k] < n && p(at[k])
  {
    if n == 0 then [] else IndicesWhere(n - 1, p) + if p(n - 1) then [n - 1] else []
  }

  lemma {:induction false} IndicesAre(n: nat, p: nat -> bool)
    ensures forall i, j :: 0 <= i < j < |IndicesWhere(n, p)| ==> IndicesWhere(n, p)[i] < IndicesWhere(n, p)[j]
    ensures forall i :: i in IndicesWhere(n, p) <==> 0 <= i < n && p(i)
  {
    if n > 0 {
      IndicesAre(n - 1, p);
    }
  }

  function Pick<T>(xs: seq<T>, at: seq<nat>): (ys: seq<T>)
    requires forall k :: 0 <= k < |at| ==> at[k] < |xs|
    ensures |ys| == |at| && forall k :: 0 <= k < |at| ==> ys[k] == xs[at[k]]
  {
    seq(|at|, k requires 0 <= k < |at| => xs[at[k]])
  }

  function IsFirst(keys: seq<string>): nat -> bool {
    (i: nat) => i < |keys| && keys[i] !in keys[..i]
  }

  /** Where every key occurs first. */
  function FirstsOf(keys: seq<string>): (at: seq<nat>)
    ensures forall k :: 0 <= k < |at| ==> at[k] < |keys|
  {
    IndicesWhere(|keys|, IsFirst(keys))
  }

  function KeysOf(drafts: seq<Draft>, key: string -> string): (keys: seq<string>)
    ensures |keys| == |drafts| && forall i :: 0 <= i < |drafts| ==> keys[i] == key(drafts[i].text)
  {
    seq(|drafts|, i requires 0 <= i < |drafts| => key(drafts[i].text))
  }

  lemma PickNothing<T>(xs: seq<T>, p: nat -> bool)
    ensures IndicesWhere(0, p) == [] && Pick(xs, []) == []
  {}

  lemma PickNext<T>(xs: seq<T>, n: nat, p: nat -> bool)
    requires n < |xs|
    ensures Pick(xs, IndicesWhere(n + 1, p)) == Pick(xs, IndicesWhere(n, p)) + if p(n) then [xs[n]] else []
  {}

  // ---------------------------------------------------------------------------------------
  // What is kept of a reply, and where it stood
  // ---------------------------------------------------------------------------------------

  predicate Ascending(at: seq<nat>) {
    forall i, j :: 0 <= i < j < |at| ==> at[i] < at[j]
  }

  function Known(refs: seq<string>, valid: set<string>): nat -> bool {
    (i: nat) => i < |refs| && refs[i] in valid
  }

  lemma {:induction false} WithinLast(refs: seq<string>, r: string, valid: set<string>)
    ensures Within(refs + [r], valid) == Within(refs, valid) + if r in valid then [r] else []
    decreases |refs|
  {
    if refs == [] {
      assert refs + [r] == [r];
      assert Within([], valid) == [] && [r][1..] == [];
    } else {
      var first, tail := if refs[0] in valid then [refs[0]] else [], refs[1..];
      WithinLast(tail, r, valid);
      assert (refs + [r])[1..] == tail + [r];
      assert Within(refs + [r], valid) == first + Within(tail + [r], valid);
      assert Within(refs, valid) == first + Within(tail, valid);
      hide Within;
    }
  }

  lemma {:induction false} WithinIsPicked(refs: seq<string>, valid: set<string>, n: nat)
    requires n <= |refs|
    ensures Within(refs[..n], valid) == Pick(refs, IndicesWhere(n, Known(refs, valid)))
  {
    if n == 0 {
      PickNothing(refs, Known(refs, valid));
    } else {
      WithinIsPicked(refs, valid, n - 1);
      WithinLast(refs[..n - 1], refs[n - 1], valid);
      assert refs[..n] == refs[..n - 1] + [refs[n - 1]];
      PickNext(refs, n - 1, Known(refs, valid));
      hide Within, IndicesWhere, Pick;
    }
  }

  /** The references that are kept are the known ones, where they stand. */
  lemma KnownRefsKept(refs: seq<string>, valid: set<string>) returns (at: seq<nat>)
    ensures Ascending(at) && (forall i :: i in at <==> 0 <= i < |refs| && refs[i] in valid)
    ensures |Within(refs, valid)| == |at|
    ensures forall k :: 0 <= k < |at| ==> at[k] < |refs| && Within(refs, valid)[k] == refs[at[k]]
  {
    at := IndicesWhere(|refs|, Known(refs, valid));
    IndicesAre(|refs|, Known(refs, valid));
    WithinIsPicked(refs, valid, |refs|);
    assert refs[..|refs|] == refs;
    hide Within, IndicesWhere, Pick;
  }

  predicate Acceptable(d: Draft, valid: set<string>) {
    d.text != "" && exists r :: r in d.refs && r in valid
  }

  lemma AcceptableIff(d: Draft, valid: set<string>)
    ensures Acceptable(d, valid) <==> d.text != "" && Within(d.refs, valid) != []
  {
    WithinMembers(d.refs, valid);
    if Within(d.refs, valid) != [] {
      assert Within(d.refs, valid)[0] in Within(d.refs, valid);
    }
  }

  function Passing(drafts: seq<Draft>, valid: set<string>): nat -> bool {
    (i: nat) => i < |drafts| && Acceptable(drafts[i], valid)
  }

  function Trimmed(drafts: seq<Draft>, valid: set<string>): (trimmed: seq<Draft>)
    ensures |trimmed| == |drafts|
  {
    seq(|drafts|, i requires 0 <= i < |drafts| => Draft(drafts[i].text, Within(drafts[i].refs, valid)))
  }

  lemma {:induction false} AcceptedArePicked(drafts: seq<Draft>, valid: set<string>, n: nat)
    requires n <= |drafts|
    ensures Accepted(drafts[..n], valid) == Pick(Trimmed(drafts, valid), IndicesWhere(n, Passing(drafts, valid)))
  {
    if n == 0 {
      PickNothing(Trimmed(drafts, valid), Passing(drafts, valid));
    } else {
      AcceptedArePicked(drafts, valid, n - 1);
      AcceptedNext(drafts, n - 1, valid);
      AcceptableIff(drafts[n - 1], valid);
      PickNext(Trimmed(drafts, valid), n - 1, Passing(drafts, valid));
      assert Trimmed(drafts, valid)[n - 1] == Draft(drafts[n - 1].text, Within(drafts[n - 1].refs, valid));
      hide Accepted, Within, Acceptable, IndicesWhere, Pick, Trimmed;
    }
  }

  /** The drafts that are accepted are those with a text and a known reference, where they stand. */
  lemma DraftsAccepted(drafts: seq<Draft>, valid: set<string>) returns (at: seq<nat>)
    ensures Ascending(at) && (forall i :: i in at <==> 0 <= i < |drafts| && Acceptable(drafts[i], valid))
    ensures |Accepted(drafts, valid)| == |at|
    ensures forall k :: 0 <= k < |at| ==>
      at[k] < |drafts|
      && Accepted(drafts, valid)[k] == Draft(drafts[at[k]].text, Within(drafts[at[k]].refs, valid))
  {
    at := IndicesWhere(|drafts|, Passing(drafts, valid));
    IndicesAre(|drafts|, Passing(drafts, valid));
    AcceptedArePicked(drafts, valid, |drafts|);
    assert drafts[..|drafts|] == drafts;
    hide Within, Accepted, Acceptable, IndicesWhere, Pick;
  }

  /** `AnalystAgent._dedupe`, on claims that carry the drafts. */
  method Dedupe(cs: seq<Claim>, key: string -> string, ghost drafts: seq<Draft>) returns (unique: seq<Claim>)
    requires Carries(cs, drafts)
    ensures unique == Pick(cs, FirstsOf(KeysOf(drafts, key)))
  {
    ghost var keys := KeysOf(drafts, key);
    ghost var first := IsFirst(keys);
    hide IndicesWhere, Pick, KeysOf;
    unique := [];
    var seen: set<string> := {};
    PickNothing(cs, first);
    for i := 0 to |cs|
      invariant unique == Pick(cs, IndicesWhere(i, first))
      invariant forall k :: k in seen <==> k in keys[..i]
    {
      var k := key(cs[i].text);
      assert keys[i] == k && keys[..i + 1] == keys[..i] + [keys[i]];
      PickNext(cs, i, first);
      if k !in seen {
        seen := seen + {k};
        unique := unique + [cs[i]];
      }
    }
  }

  /** What is kept has distinct keys, in the order of the input. */
  lemma KeptKeysDiffer(keys: seq<string>)
    ensures var at := FirstsOf(keys);
            forall i, j :: 0 <= i < j < |at| ==> at[i] < at[j] && keys[at[i]] != keys[at[j]]
  {
    IndicesAre(|keys|, IsFirst(keys));
    var at := FirstsOf(keys);
    forall i, j | 0 <= i < j < |at| ensures at[i] < at[j] && keys[at[i]] != keys[at[j]] {
      assert keys[at[i]] in keys[..at[j]];
    }
  }

  /** What is dropped has the key of something kept before it. */
  lemma {:induction false} DroppedKeysAreKept(keys: seq<string>, i: nat)
    requires i < |keys|
    ensures exists k :: k in FirstsOf(keys) && k <= i && keys[k] == keys[i]
    decreases i
  {
    IndicesAre(|keys|, IsFirst(keys));
    if keys[i] in keys[..i] {
      var k :| 0 <= k < i && keys[..i][k] == keys[i];
      DroppedKeysAreKept(keys, k);
    } else {
      assert i in FirstsOf(keys);
    }
  }

  /** What all the extractions that did not fail amount to. */
  function Drafted(extractions: seq<Extraction>, valid: set<string>): seq<Draft> {
    if extractions == [] then []
    else
      var last := extractions[|extractions| - 1];
      Drafted(extractions[..|extractions| - 1], valid)
      + if last.Extracted? then Accepted(FirstFew(last.drafts), valid) else []
  }

  lemma {:induction false} DraftedAreGrounded(extractions: seq<Extraction>, sources: seq<Source>)
    ensures AllGrounded(Drafted(extractions, ValidRefs(sources)), sources)
  {
    if extractions != [] {
      var last := extractions[|extractions| - 1];
      DraftedAreGrounded(extractions[..|extractions| - 1], sources);
      if last.Extracted? {
        AcceptedAreGrounded(FirstFew(last.drafts), sources);
      }
    }
  }

  lemma DraftedNext(extractions: seq<Extraction>, i: nat, valid: set<string>)
    requires i < |extractions|
    ensures Drafted(extractions[..i + 1], valid) == Drafted(extractions[..i], valid)
      + if extractions[i].Extracted? then Accepted(FirstFew(extractions[i].drafts), valid) else []
  {
    assert extractions[..i + 1][..i] == extractions[..i];
  }

  /** Failed extractions are skipped, the others concatenated. */
  method ExtractAll(extractions: seq<Extraction>, sources: seq<Source>) returns (cs: seq<Claim>)
    ensures Carries(cs, Drafted(extractions, ValidRefs(sources)))
    ensures Distinct(cs) && forall i :: 0 <= i < |cs| ==> fresh(cs[i])
  {
    cs := [];
    assert Carries(cs, []) && Distinct(cs);
    assert Drafted(extractions[..0], ValidRefs(sources)) == [];
    hide Accepted, Drafted, ValidRefs, FirstFew, Carries, Distinct;
    for i := 0 to |extractions|
      invariant Carries(cs, Drafted(extractions[..i], ValidRefs(sources)))
      invariant Distinct(cs) && forall k :: 0 <= k < |cs| ==> fresh(cs[k])
    {
      DraftedNext(extractions, i, ValidRefs(sources));
      if extractions[i].Extracted? {
        var more := Extract(extractions[i].drafts, sources);
        CarriesBoth(
          cs, more, Drafted(extractions[..i], ValidRefs(sources)),
          Accepted(FirstFew(extractions[i].drafts), ValidRefs(sources)));
        DistinctBoth(cs, more);
        cs := cs + more;
      }
    }
    assert extractions[..|extractions|] == extractions;
  }

  /** What the analyst makes of the replies: without sources nothing, else the first draft of
      every key. */
  function Candidates(extractions: seq<Extraction>, sources: seq<Source>, key: string -> string): seq<Draft> {
    if sources == [] then []
    else
      var all := Drafted(extractions, ValidRefs(sources));
      Pick(all, FirstsOf(KeysOf(all, key)))
  }

  lemma CandidatesAreGrounded(extractions: seq<Extraction>, sources: seq<Source>, key: string -> string)
    ensures AllGrounded(Candidates(extractions, sources, key), sources)
    ensures var drafts := Candidates(extractions, sources, key);
            forall i, j :: 0 <= i < j < |drafts| ==> key(drafts[i].text) != key(drafts[j].text)
  {
    assert AllGrounded([], sources);
    var all := Drafted(extractions, ValidRefs(sources));
    DraftedAreGrounded(extractions, sources);
    PickedAreGrounded(all, FirstsOf(KeysOf(all, key)), sources);
    KeptKeysDiffer(KeysOf(all, key));
    hide Drafted, ValidRefs, FirstsOf, AllGrounded;
  }

  lemma PickedAreGrounded(drafts: seq<Draft>, at: seq<nat>, sources: seq<Source>)
    requires AllGrounded(drafts, sources) && forall k :: 0 <= k < |at| ==> at[k] < |drafts|
    ensures AllGrounded(Pick(drafts, at), sources)
  {
    hide Grounded;
  }

  /** `AnalystAgent.run`. */
  method Analyze(extractions: seq<Extraction>, sources: seq<Source>, key: string -> string)
    returns (cs: seq<Claim>)
    ensures Carries(cs, Candidates(extractions, sources, key))
    ensures Distinct(cs) && forall i :: 0 <= i < |cs| ==> fresh(cs[i])
  {
    if sources == [] {
      return [];
    }
    var all := ExtractAll(extractions, sources);
    ghost var drafts := Drafted(extractions, ValidRefs(sources));
    KeptKeysDiffer(KeysOf(drafts, key));
    cs := Dedupe(all, key, drafts);
  }

  // ---------------------------------------------------------------------------------------
  // The whole pipeline
  // ---------------------------------------------------------------------------------------

  /** Everything the model will say after the extraction, when the debate is halted, and the
      settings of the run. */
  datatype Script = Script(
    first: nat -> Reply, last: nat -> Reply, critic: Critic, rebutter: Rebutter, halt: nat -> bool,
    maxRounds: int, depth: int, minSupport: real)

  /** A claim after its first verification. */
  function Opened(drafts: seq<Draft>, byRef: map<string, Source>, s: Script, i: nat): Standing
    requires i < |drafts|
  {
    Verified(New(drafts[i].text), drafts[i].refs, byRef, s.first(i), s.minSupport)
  }

  /** Its first verification returned and did not refute it. */
  predicate Contends(drafts: seq<Draft>, byRef: map<string, Source>, s: Script, i: nat) {
    i < |drafts| && !Raises(drafts[i].refs, byRef, s.first(i)) && !Opened(drafts, byRef, s, i).status.Refuted?
  }

  function Contending(drafts: seq<Draft>, byRef: map<string, Source>, s: Script): nat -> bool {
    (i: nat) => Contends(drafts, byRef, s, i)
  }

  function Contenders(drafts: seq<Draft>, byRef: map<string, Source>, s: Script): (at: seq<nat>)
    ensures forall k :: 0 <= k < |at| ==> at[k] < |drafts|
  {
    IndicesWhere(|drafts|, Contending(drafts, byRef, s))
  }

  /** The claims as the debate finds them, and what it leaves unless it raises. */
  function Opening(drafts: seq<Draft>, byRef: map<string, Source>, s: Script): (vs: seq<Standing>)
    ensures |vs| == |Contenders(drafts, byRef, s)|
  {
    var at := Contenders(drafts, byRef, s);
    seq(|at|, k requires 0 <= k < |at| => Opened(drafts, byRef, s, at[k]))
  }

  function Closing(drafts: seq<Draft>, byRef: map<string, Source>, s: Script): (vs: Option<seq<Standing>>)
    ensures vs.Some? ==> |vs.value| == |Contenders(drafts, byRef, s)|
  {
    Debated(Opening(drafts, byRef, s), 1, Rounds(s.maxRounds, s.depth), s.critic, s.rebutter, s.halt)
  }

  /** The final state of every claim, and how often it is returned. */
  predicate Concluded(
      claims: seq<Claim>, result: seq<Claim>, drafts: seq<Draft>, byRef: map<string, Source>, s: Script)
    requires |claims| == |drafts| && Closing(drafts, byRef, s).Some?
    reads claims
  {
    var at, debated := Contenders(drafts, byRef, s), Closing(drafts, byRef, s).value;
    && (forall c :: c in result ==> c in claims)
    && (forall i :: 0 <= i < |claims| && !Contends(drafts, byRef, s, i) ==>
          && claims[i].View() == Opened(drafts, byRef, s, i)
          && multiset(result)[claims[i]] == if Raises(drafts[i].refs, byRef, s.first(i)) then 0 else 1)
    && (forall k :: 0 <= k < |at| ==>
          && claims[at[k]].View() == Verified(debated[k], drafts[at[k]].refs, byRef, s.last(k), s.minSupport)
          && multiset(result)[claims[at[k]]] == Times(drafts[at[k]].refs, byRef, s.last(k)))
  }

  /** Every first verification has happened. */
  predicate AllOpened(claims: seq<Claim>, drafts: seq<Draft>, byRef: map<string, Source>, s: Script)
    reads claims
  {
    |claims| == |drafts|
    && forall i :: 0 <= i < |claims| ==>
      claims[i].refs == drafts[i].refs && claims[i].View() == Opened(drafts, byRef, s, i)
  }

  function FirstReplies(s: Script, n: nat): (replies: seq<Reply>)
    ensures |replies| == n
  {
    seq(n, i requires 0 <= i < n => s.first(i))
  }

  lemma SurvivorsNext(claims: seq<Claim>, byRef: map<string, Source>, s: Script, n: nat)
    requires n < |claims|
    ensures Survivors(claims[..n + 1], byRef, FirstReplies(s, n + 1))
         == Survivors(claims[..n], byRef, FirstReplies(s, n))
          + if Raises(claims[n].refs, byRef, s.first(n)) then [] else [claims[n]]
  {
    hide Raises;
    assert claims[..n + 1][..n] == claims[..n] && FirstReplies(s, n + 1)[..n] == FirstReplies(s, n);
  }

  lemma UnrefutedNext(cs: seq<Claim>, more: seq<Claim>)
    requires |more| <= 1
    ensures Unrefuted(cs + more)
         == Unrefuted(cs) + if more == [] || more[0].status.Refuted? then [] else more
  {
    if more == [] {
      assert cs + more == cs;
    } else {
      assert (cs + more)[..|cs|] == cs;
    }
  }

  lemma ContendsIff(claims: seq<Claim>, drafts: seq<Draft>, byRef: map<string, Source>, s: Script, i: nat)
    requires AllOpened(claims, drafts, byRef, s) && i < |claims|
    ensures Contending(drafts, byRef, s)(i) <==>
      !Raises(claims[i].refs, byRef, s.first(i)) && !claims[i].status.Refuted?
  {
    hide Raises, Verified;
    assert claims[i].View() == Opened(drafts, byRef, s, i);
  }

  /** The claims that enter the debate are the contenders. */
  lemma {:induction false} ContendersEnter(
      claims: seq<Claim>, drafts: seq<Draft>, byRef: map<string, Source>, s: Script, n: nat)
    requires AllOpened(claims, drafts, byRef, s) && n <= |claims|
    ensures Unrefuted(Survivors(claims[..n], byRef, FirstReplies(s, n)))
         == Pick(claims, IndicesWhere(n, Contending(drafts, byRef, s)))
  {
    if n == 0 {
      assert Unrefuted([]) == [];
      PickNothing(claims, Contending(drafts, byRef, s));
    } else {
      ContendersEnter(claims, drafts, byRef, s, n - 1);
      ContendsIff(claims, drafts, byRef, s, n - 1);
      hide *;
      var c := claims[n - 1];
      SurvivorsNext(claims, byRef, s, n - 1);
      UnrefutedNext(
        Survivors(claims[..n - 1], byRef, FirstReplies(s, n - 1)),
        if Raises(c.refs, byRef, s.first(n - 1)) then [] else [c]);
      PickNext(claims, n - 1, Contending(drafts, byRef, s));
    }
  }

  predicate Settled(c: Claim, rounds: int, minSupport: real)
    reads c
  {
    InRange(c.View(), rounds) && (c.status.Supported? ==> c.support >= minSupport)
  }

  /** Only a refuted claim can be listed twice. */
  predicate ListedAsOften(result: seq<Claim>, c: Claim)
    reads c
  {
    1 <= multiset(result)[c] <= if c.status.Refuted? then 2 else 1
  }

  lemma OpenedInRange(drafts: seq<Draft>, byRef: map<string, Source>, s: Script, i: nat)
    requires i < |drafts|
    ensures InRange(Opened(drafts, byRef, s, i), Rounds(s.maxRounds, s.depth))
  {
    VerifiedInRange(New(drafts[i].text), drafts[i].refs, byRef, s.first(i), s.minSupport, Rounds(s.maxRounds, s.depth));
    hide Verified;
  }

  function LastReplies(s: Script, n: nat): (replies: seq<Reply>)
    ensures |replies| == n && forall k :: 0 <= k < n ==> replies[k] == s.last(k)
  {
    seq(n, k requires 0 <= k < n => s.last(k))
  }

  /** The claims whose first verification returned. */
  function Returning(claims: seq<Claim>, byRef: map<string, Source>, s: Script): seq<Claim> {
    Survivors(claims, byRef, FirstReplies(s, |claims|))
  }

  lemma ReturningAre(claims: seq<Claim>, byRef: map<string, Source>, s: Script, i: nat)
    requires Distinct(claims) && i < |claims|
    ensures claims[i] in Returning(claims, byRef, s) <==> !Raises(claims[i].refs, byRef, s.first(i))
  {
    SurvivorsAreListed(claims, byRef, FirstReplies(s, |claims|), claims[i]);
    hide Raises;
  }

  /** Claims that do not contend are left alone, and listed once unless their verification raised. */
  lemma OthersConclude(
      claims: seq<Claim>, verified: seq<Claim>, contested: seq<Claim>, result: seq<Claim>,
      drafts: seq<Draft>, byRef: map<string, Source>, s: Script, debated: seq<Standing>, last: seq<Reply>, i: nat)
    requires |claims| == |drafts| && Distinct(claims) && i < |claims| && claims[i].refs == drafts[i].refs
    requires verified == Returning(claims, byRef, s) && contested == Pick(claims, Contenders(drafts, byRef, s))
    requires Rescored(verified, contested, debated, byRef, last, s.minSupport)
    requires result == Survivors(contested, byRef, last) + RefutedAmong(verified)
    requires !Contends(drafts, byRef, s, i) && claims[i].View() == Opened(drafts, byRef, s, i)
    ensures multiset(result)[claims[i]] == if Raises(drafts[i].refs, byRef, s.first(i)) then 0 else 1
  {
    var c := claims[i];
    OthersStayOut(claims, drafts, byRef, s, i);
    ReturningAre(claims, byRef, s, i);
    assert Raises(drafts[i].refs, byRef, s.first(i)) || c.status.Refuted? by {
      hide Raises, Verified;
    }
    assert Distinct(verified) && !Survives(contested, byRef, last, c) by {
      hide Raises, Verified, Contends;
    }
    hide *;
    RefutedCounts(verified, c);
    SurvivorsAreListed(contested, byRef, last, c);
  }

  lemma ReturnedAreClaims(
      claims: seq<Claim>, verified: seq<Claim>, contested: seq<Claim>, byRef: map<string, Source>,
      last: seq<Reply>, c: Claim)
    requires |contested| == |last| && Distinct(verified)
    requires c in Survivors(contested, byRef, last) + RefutedAmong(verified)
    requires (forall d :: d in verified ==> d in claims) && (forall d :: d in contested ==> d in claims)
    ensures c in claims
  {
    RefutedCounts(verified, c);
    SurvivorsAreListed(contested, byRef, last, c);
    hide Raises;
  }

  /** What the debate stage did, in terms of the whole pipeline. */
  lemma ConcludeClaims(
      claims: seq<Claim>, verified: seq<Claim>, contested: seq<Claim>, result: seq<Claim>,
      drafts: seq<Draft>, byRef: map<string, Source>, s: Script)
    requires |claims| == |drafts| && Distinct(claims) && Closing(drafts, byRef, s).Some?
    requires forall i :: 0 <= i < |claims| ==> claims[i].refs == drafts[i].refs
    requires forall i :: 0 <= i < |claims| && !Contends(drafts, byRef, s, i) ==>
      claims[i].View() == Opened(drafts, byRef, s, i)
    requires verified == Returning(claims, byRef, s) && Nested(contested, verified, claims)
    requires contested == Pick(claims, Contenders(drafts, byRef, s))
    requires Rescored(
      verified, contested, Closing(drafts, byRef, s).value, byRef, LastReplies(s, |contested|), s.minSupport)
    requires result == Survivors(contested, byRef, LastReplies(s, |contested|)) + RefutedAmong(verified)
    ensures Concluded(claims, result, drafts, byRef, s)
  {
    hide InOrder;
    hide Contends, Opened, Verified, Raises, Returning, Closing, Times;
    hide Survivors, RefutedAmong, Contenders, LastReplies;
    var at, last := Contenders(drafts, byRef, s), LastReplies(s, |contested|);
    var debated := Closing(drafts, byRef, s).value;
    forall i | 0 <= i < |claims| && !Contends(drafts, byRef, s, i)
      ensures multiset(result)[claims[i]] == if Raises(drafts[i].refs, byRef, s.first(i)) then 0 else 1
    {
      OthersConclude(claims, verified, contested, result, drafts, byRef, s, debated, last, i);
    }
    forall k | 0 <= k < |at|
      ensures claims[at[k]].View() == Verified(debated[k], drafts[at[k]].refs, byRef, s.last(k), s.minSupport)
      ensures multiset(result)[claims[at[k]]] == Times(drafts[at[k]].refs, byRef, s.last(k))
    {
      ContestedTimes(verified, contested, debated, byRef, last, s.minSupport, k);
    }
    forall c | c in result ensures c in claims {
      ReturnedAreClaims(claims, verified, contested, byRef, last, c);
    }
  }

  lemma Conclude(
      claims: seq<Claim>, verified: seq<Claim>, contested: seq<Claim>, result: seq<Claim>,
      drafts: seq<Draft>, byRef: map<string, Source>, s: Script)
    requires |claims| == |drafts| && Distinct(claims) && Closing(drafts, byRef, s).Some?
    requires forall i :: 0 <= i < |claims| ==> claims[i].refs == drafts[i].refs
    requires forall i :: 0 <= i < |claims| && !Contends(drafts, byRef, s, i) ==>
      claims[i].View() == Opened(drafts, byRef, s, i)
    requires verified == Returning(claims, byRef, s) && Nested(contested, verified, claims)
    requires contested == Pick(claims, Contenders(drafts, byRef, s))
    requires Rescored(
      verified, contested, Closing(drafts, byRef, s).value, byRef, LastReplies(s, |contested|), s.minSupport)
    requires result == Survivors(contested, byRef, LastReplies(s, |contested|)) + RefutedAmong(verified)
    ensures Concluded(claims, result, drafts, byRef, s) && RefutedStandLast(result, claims)
  {
    hide *;
    ConcludeClaims(claims, verified, contested, result, drafts, byRef, s);
    ReturnedInOrder(result, claims, verified, contested, byRef, LastReplies(s, |contested|));
  }

  /** The analyst and the verifier. */
  method Open(extractions: seq<Extraction>, sources: seq<Source>, key: string -> string, s: Script)
    returns (verified: seq<Claim>, ghost claims: seq<Claim>)
    ensures Distinct(claims) && forall i :: 0 <= i < |claims| ==> fresh(claims[i])
    ensures AllOpened(claims, Candidates(extractions, sources, key), ByRef(sources), s)
    ensures verified == Returning(claims, ByRef(sources), s)
    ensures forall i :: 0 <= i < |verified| ==> fresh(verified[i])
  {
    hide Candidates, ByRef, Verified, Raises;
    var candidates := Analyze(extractions, sources, key);
    claims := candidates;
    verified := VerifyAll(candidates, ByRef(sources), FirstReplies(s, |candidates|), s.minSupport);
    forall i | 0 <= i < |verified| ensures verified[i] in claims {
      SurvivorsAreListed(claims, ByRef(sources), FirstReplies(s, |claims|), verified[i]);
    }
  }

  /** The debate stage on what the verifier returned. */
  method Settle(
      verified: seq<Claim>, byRef: map<string, Source>, s: Script, ghost claims: seq<Claim>, ghost drafts: seq<Draft>)
    returns (ok: bool, result: seq<Claim>)
    requires Distinct(claims) && AllOpened(claims, drafts, byRef, s) && verified == Returning(claims, byRef, s)
    modifies verified
    ensures ok <==> Closing(drafts, byRef, s).Some?
    ensures ok ==> Concluded(claims, result, drafts, byRef, s) && RefutedStandLast(result, claims)
  {
    EntersDebate(claims, drafts, byRef, s);
    ReturningInOrder(claims, byRef, s);
    forall i | 0 <= i < |claims| && !Contends(drafts, byRef, s, i)
      ensures claims[i] !in Pick(claims, Contenders(drafts, byRef, s))
    {
      OthersStayOut(claims, drafts, byRef, s, i);
    }
    hide Verified, Raises, Debated, Times, Survivors, RefutedAmong, Unrefuted, Contenders, Concluded, Opened;
    hide Contends, Returning, Pick, LastReplies, Opening, Views, Rescored;
    hide Nested, RefutedStandLast;
    var last := LastReplies(s, |Unrefuted(verified)|);
    ghost var contested;
    ok, result, contested := Moderate(
      verified, byRef, s.maxRounds, s.depth, s.minSupport, s.critic, s.rebutter, s.halt, last);
    if ok {
      assert forall i :: 0 <= i < |claims| && !Contends(drafts, byRef, s, i) ==>
        claims[i].View() == Opened(drafts, byRef, s, i);
      Conclude(claims, verified, contested, result, drafts, byRef, s);
    }
  }

  lemma OthersStayOut(claims: seq<Claim>, drafts: seq<Draft>, byRef: map<string, Source>, s: Script, i: nat)
    requires Distinct(claims) && |claims| == |drafts| && i < |claims| && !Contends(drafts, byRef, s, i)
    ensures claims[i] !in Pick(claims, Contenders(drafts, byRef, s))
  {
    hide Contends;
    assert !Contending(drafts, byRef, s)(i);
    IndicesAre(|drafts|, Contending(drafts, byRef, s));
    hide IndicesWhere, Pick;
  }

  lemma ReturningAreClaims(claims: seq<Claim>, byRef: map<string, Source>, s: Script)
    requires Distinct(claims)
    ensures Distinct(Returning(claims, byRef, s))
    ensures forall c :: c in Returning(claims, byRef, s) ==> c in claims
  {
    hide Raises, Survivors;
    SurvivorsDistinct(claims, byRef, FirstReplies(s, |claims|));
    forall c | c in Returning(claims, byRef, s) ensures c in claims {
      SurvivorsAreListed(claims, byRef, FirstReplies(s, |claims|), c);
    }
  }

  lemma ReturningInOrder(claims: seq<Claim>, byRef: map<string, Source>, s: Script)
    requires Distinct(claims)
    ensures var verified := Returning(claims, byRef, s);
            Distinct(verified) && Nested(Unrefuted(verified), verified, claims)
  {
    ReturningAreClaims(claims, byRef, s);
    hide Raises, Survivors, InOrder;
    SurvivorsInOrder(claims, byRef, FirstReplies(s, |claims|));
    StatusesInOrder(Returning(claims, byRef, s));
    SurvivorsDistinct(claims, byRef, FirstReplies(s, |claims|));
    UnrefutedMembers(Returning(claims, byRef, s));
  }

  /** Who enters the debate, and in which state. */
  lemma EntersDebate(claims: seq<Claim>, drafts: seq<Draft>, byRef: map<string, Source>, s: Script)
    requires Distinct(claims) && AllOpened(claims, drafts, byRef, s)
    ensures Unrefuted(Returning(claims, byRef, s)) == Pick(claims, Contenders(drafts, byRef, s))
    ensures Views(Unrefuted(Returning(claims, byRef, s))) == Opening(drafts, byRef, s)
  {
    ContendersEnter(claims, drafts, byRef, s, |claims|);
    assert claims[..|claims|] == claims;
    hide Opened, Survivors, Unrefuted, IndicesWhere, Pick;
  }

  lemma OpeningInRange(drafts: seq<Draft>, byRef: map<string, Source>, s: Script)
    requires Closing(drafts, byRef, s).Some?
    ensures forall v :: v in Closing(drafts, byRef, s).value ==> InRange(v, Rounds(s.maxRounds, s.depth))
  {
    hide Opened, Debated;
    forall v | v in Opening(drafts, byRef, s) ensures InRange(v, Rounds(s.maxRounds, s.depth)) {
      var at := Contenders(drafts, byRef, s);
      var k :| 0 <= k < |at| && v == Opened(drafts, byRef, s, at[k]);
      OpenedInRange(drafts, byRef, s, at[k]);
    }
    DebateKeepsRange(Opening(drafts, byRef, s), 1, Rounds(s.maxRounds, s.depth), s.critic, s.rebutter, s.halt);
  }

  /** A contender that is returned at all is scored as it should be, and listed as often. */
  lemma ContenderIsSound(
      v: Standing, refs: seq<string>, byRef: map<string, Source>, reply: Reply, minSupport: real, rounds: int)
    requires InRange(v, rounds) && !v.status.Refuted? && Times(refs, byRef, reply) > 0
    ensures var w := Verified(v, refs, byRef, reply, minSupport);
            && InRange(w, rounds) && (w.status.Supported? ==> w.support >= minSupport)
            && Times(refs, byRef, reply) <= if w.status.Refuted? then 2 else 1
  {
    VerifiedInRange(v, refs, byRef, reply, minSupport, rounds);
    VerifiedTimes(v, refs, byRef, reply, minSupport);
    hide Verified, Times, InRange;
  }

  /** What is returned is grounded in the sources, scored within range, supported only at or
      above the threshold, and listed once unless it is refuted. */
  lemma ConcludedIsSound(
      claims: seq<Claim>, result: seq<Claim>, drafts: seq<Draft>, sources: seq<Source>, byRef: map<string, Source>,
      s: Script, c: Claim)
    requires |claims| == |drafts| && forall i :: 0 <= i < |claims| ==> claims[i].refs == drafts[i].refs
    requires AllGrounded(drafts, sources) && Closing(drafts, byRef, s).Some?
    requires Concluded(claims, result, drafts, byRef, s) && c in result
    ensures Grounded(c.refs, sources) && Settled(c, Rounds(s.maxRounds, s.depth), s.minSupport)
    ensures ListedAsOften(result, c)
  {
    hide Grounded, Times, Verified, Raises, Closing, Opened, Rounds, InRange;
    var i :| 0 <= i < |claims| && claims[i] == c;
    assert drafts[i] in drafts;
    if Contends(drafts, byRef, s, i) {
      IndicesAre(|drafts|, Contending(drafts, byRef, s));
      assert Contending(drafts, byRef, s)(i);
      var k :| 0 <= k < |Contenders(drafts, byRef, s)| && Contenders(drafts, byRef, s)[k] == i;
      OpeningInRange(drafts, byRef, s);
      ClosingUnrefuted(drafts, byRef, s);
      var v := Closing(drafts, byRef, s).value[k];
      ContenderIsSound(v, c.refs, byRef, s.last(k), s.minSupport, Rounds(s.maxRounds, s.depth));
    } else {
      OpenedInRange(drafts, byRef, s, i);
    }
  }

  lemma ClosingUnrefuted(drafts: seq<Draft>, byRef: map<string, Source>, s: Script)
    requires Closing(drafts, byRef, s).Some?
    ensures forall v :: v in Closing(drafts, byRef, s).value ==> !v.status.Refuted?
  {
    hide Opened, Debated, Raises;
    var at := Contenders(drafts, byRef, s);
    forall v | v in Opening(drafts, byRef, s) ensures !v.status.Refuted? {
      var k :| 0 <= k < |at| && v == Opened(drafts, byRef, s, at[k]);
      assert Contending(drafts, byRef, s)(at[k]);
    }
    DebateKeepsUnrefuted(Opening(drafts, byRef, s), 1, Rounds(s.maxRounds, s.depth), s.critic, s.rebutter, s.halt);
  }

  /** Whatever the model replies: exactly the candidates become claims; the stage ends unless
      the debate raises; and of every claim it is settled what it says in the end and how often
      it is returned. What is returned is grounded in the sources, scored within range, supported
      only at or above the threshold, and listed once unless it is refuted. */
  method Research(extractions: seq<Extraction>, sources: seq<Source>, key: string -> string, s: Script)
    returns (ok: bool, result: seq<Claim>, ghost claims: seq<Claim>)
    ensures |claims| == |Candidates(extractions, sources, key)| && Distinct(claims)
    ensures forall i :: 0 <= i < |claims| ==>
      fresh(claims[i]) && claims[i].refs == Candidates(extractions, sources, key)[i].refs
    ensures ok <==> Closing(Candidates(extractions, sources, key), ByRef(sources), s).Some?
    ensures ok ==> Concluded(claims, result, Candidates(extractions, sources, key), ByRef(sources), s)
    ensures ok ==> RefutedStandLast(result, claims)
    ensures ok ==> forall c :: c in result ==>
      && c.refs != [] && (forall r :: r in c.refs ==> exists i :: 0 <= i < |sources| && sources[i].ref == r)
      && 0.0 <= c.support <= 1.0 && (c.status.Supported? ==> c.support >= s.minSupport)
      && (c.rounds == 0 || (c.rounds <= s.maxRounds && c.rounds <= s.depth))
      && 1 <= multiset(result)[c] <= if c.status.Refuted? then 2 else 1
    ensures ok <==>
      !DebateStops(
        |Contenders(Candidates(extractions, sources, key), ByRef(sources), s)|, 1, Smaller(s.maxRounds, s.depth),
        s.critic, s.rebutter, s.halt)
    ensures ok ==>
      var at := Contenders(Candidates(extractions, sources, key), ByRef(sources), s);
      forall k :: 0 <= k < |at| ==>
        DebateRounds(
          0, claims[at[k]].rounds, k, |at|, 1, Smaller(s.maxRounds, s.depth), s.critic, s.rebutter, s.halt)
        && (Throughout(k, s.maxRounds, s.depth, s.critic, s.rebutter, s.halt) ==>
              claims[at[k]].rounds == if s.maxRounds <= s.depth then s.maxRounds else s.depth)
  {
    CandidatesAreGrounded(extractions, sources, key);
    hide Candidates, ByRef, Closing, Concluded, AllGrounded, Settled, ListedAsOften, Grounded;
    hide DebateStops, DebateRounds, Smaller, Contenders, RefutedStandLast, Throughout;
    var verified;
    verified, claims := Open(extractions, sources, key, s);
    ok, result := Settle(verified, ByRef(sources), s, claims, Candidates(extractions, sources, key));
    ghost var drafts, byRef := Candidates(extractions, sources, key), ByRef(sources);
    ClosingRounds(drafts, byRef, s);
    if ok {
      forall c | c in result
        ensures Returned(c, result, sources, s)
      {
        ConcludedIsSound(claims, result, drafts, sources, byRef, s, c);
        SoundIsReturned(c, result, sources, s);
      }
      RoundsConclude(claims, result, drafts, byRef, s);
    }
  }

  /** What holds of every claim that is returned. */
  predicate Returned(c: Claim, result: seq<Claim>, sources: seq<Source>, s: Script)
    reads c
  {
    && c.refs != [] && (forall r :: r in c.refs ==> exists i :: 0 <= i < |sources| && sources[i].ref == r)
    && 0.0 <= c.support <= 1.0 && (c.status.Supported? ==> c.support >= s.minSupport)
    && (c.rounds == 0 || (c.rounds <= s.maxRounds && c.rounds <= s.depth))
    && 1 <= multiset(result)[c] <= if c.status.Refuted? then 2 else 1
  }

  lemma SoundIsReturned(c: Claim, result: seq<Claim>, sources: seq<Source>, s: Script)
    requires Grounded(c.refs, sources) && Settled(c, Rounds(s.maxRounds, s.depth), s.minSupport)
    requires ListedAsOften(result, c)
    ensures Returned(c, result, sources, s)
  {
    forall r | r in c.refs ensures exists i :: 0 <= i < |sources| && sources[i].ref == r {
      var source :| source in sources && source.ref == r;
      var i :| 0 <= i < |sources| && sources[i] == source;
      assert sources[i].ref == r;
    }
  }

  /** How the debate ends, and what it notes, for claims that come to it with no rounds. */
  lemma ClosingRounds(drafts: seq<Draft>, byRef: map<string, Source>, s: Script)
    ensures var closing, at := Closing(drafts, byRef, s), Contenders(drafts, byRef, s);
            var rounds := Smaller(s.maxRounds, s.depth);
            && (closing.Some? <==> !DebateStops(|at|, 1, rounds, s.critic, s.rebutter, s.halt))
            && (closing.Some? ==> forall k :: 0 <= k < |at| ==>
                  DebateRounds(0, closing.value[k].rounds, k, |at|, 1, rounds, s.critic, s.rebutter, s.halt))
  {
    var opening := Opening(drafts, byRef, s);
    DebateLaws(opening, s.maxRounds, s.depth, s.critic, s.rebutter, s.halt);
    hide Debated, DebateStops, DebateRounds, Smaller, Contenders;
    forall k | 0 <= k < |opening| ensures opening[k].rounds == 0 {
      var i := Contenders(drafts, byRef, s)[k];
      VerificationKeepsRest(New(drafts[i].text), drafts[i].refs, byRef, s.first(i), s.minSupport);
      hide Verified;
    }
  }

  lemma RoundsConclude(
      claims: seq<Claim>, result: seq<Claim>, drafts: seq<Draft>, byRef: map<string, Source>, s: Script)
    requires |claims| == |drafts| && Closing(drafts, byRef, s).Some? && Concluded(claims, result, drafts, byRef, s)
    ensures var at := Contenders(drafts, byRef, s);
            forall k :: 0 <= k < |at| ==>
              DebateRounds(
                0, claims[at[k]].rounds, k, |at|, 1, Smaller(s.maxRounds, s.depth), s.critic, s.rebutter, s.halt)
              && (Throughout(k, s.maxRounds, s.depth, s.critic, s.rebutter, s.halt) ==>
                    claims[at[k]].rounds == if s.maxRounds <= s.depth then s.maxRounds else s.depth)
  {
    ClosingRounds(drafts, byRef, s);
    var at, debated := Contenders(drafts, byRef, s), Closing(drafts, byRef, s).value;
    hide Debated, DebateStops, DebateRounds, Smaller, Contenders, Closing, Contends, Opened, Raises, Throughout;
    forall k | 0 <= k < |at| ensures claims[at[k]].rounds == debated[k].rounds {
      VerificationKeepsRest(debated[k], drafts[at[k]].refs, byRef, s.last(k), s.minSupport);
      hide Verified;
    }
    forall k | 0 <= k < |at| && Throughout(k, s.maxRounds, s.depth, s.critic, s.rebutter, s.halt)
      ensures claims[at[k]].rounds == if s.maxRounds <= s.depth then s.maxRounds else s.depth
    {
      EveryRoundCounts(
        0, claims[at[k]].rounds, k, |at|, s.maxRounds, s.depth, s.critic, s.rebutter, s.halt);
    }
  }

  // ---------------------------------------------------------------------------------------
  // A claim that is returned twice, and one that is lost
  // ---------------------------------------------------------------------------------------

  /** One supported claim that nobody challenges, with the reply that its rescoring gets. */
  function Unchallenged(rescoring: Reply): Script {
    Script(
      _ => Judged(Some(Supported), Number(1.0)), _ => rescoring,
      (_, _) => NoCritique, (_, _) => NoRebuttal, _ => false, 3, 3, 0.5)
  }

  const ONE_SOURCE := [Source("S1", "https://example.org", "example.org", 1.0)]
  const ONE_DRAFT := [Draft("claim", ["S1"])]

  lemma OneCandidate(key: string -> string)
    ensures Candidates([Extracted(ONE_DRAFT)], ONE_SOURCE, key) == ONE_DRAFT
  {
    var valid := ValidRefs(ONE_SOURCE);
    assert ONE_SOURCE[0] in ONE_SOURCE;
    assert Within(["S1"], valid) == ["S1"] by {
      assert ["S1"][1..] == [];
    }
    AcceptedNext(ONE_DRAFT, 0, valid);
    DraftedNext([Extracted(ONE_DRAFT)], 0, valid);
    assert ONE_DRAFT[..1] == ONE_DRAFT && [Extracted(ONE_DRAFT)][..1] == [Extracted(ONE_DRAFT)];
    assert Drafted([], valid) == [] && Accepted([], valid) == [];
    hide Drafted, Accepted, Within, ValidRefs;
    assert Drafted([Extracted(ONE_DRAFT)], valid) == ONE_DRAFT;
    OneFirst(KeysOf(ONE_DRAFT, key));
  }

  lemma OneFirst(keys: seq<string>)
    requires |keys| == 1
    ensures FirstsOf(keys) == [0]
  {
    assert IsFirst(keys)(0);
    assert IndicesWhere(0, IsFirst(keys)) == [];
  }

  lemma OneCited()
    ensures Cited(["S1"], ByRef(ONE_SOURCE)) == ONE_SOURCE
    ensures Factor(ONE_SOURCE) == 0.8
  {
    assert ONE_SOURCE[..0] == [] && ["S1"][1..] == [] && ONE_SOURCE[1..] == [];
    assert ByRef(ONE_SOURCE)["S1"] == ONE_SOURCE[0];
    assert (set s | s in ONE_SOURCE :: s.domain) == {"example.org"} by {
      assert ONE_SOURCE[0] in ONE_SOURCE;
    }
  }

  lemma OneContends(rescoring: Reply)
    ensures var byRef, s := ByRef(ONE_SOURCE), Unchallenged(rescoring);
            Contenders(ONE_DRAFT, byRef, s) == [0] && Closing(ONE_DRAFT, byRef, s).Some?
  {
    OneCited();
    hide Cited, Factor, ByRef;
    var byRef, s := ByRef(ONE_SOURCE), Unchallenged(rescoring);
    assert Contends(ONE_DRAFT, byRef, s, 0);
    assert Contending(ONE_DRAFT, byRef, s)(0);
    assert IndicesWhere(0, Contending(ONE_DRAFT, byRef, s)) == [];
    hide Contends, Opened;
    assert Contenders(ONE_DRAFT, byRef, s) == [0];
    NobodyChallenges(Opening(ONE_DRAFT, byRef, s), rescoring);
  }

  lemma NobodyChallenges(vs: seq<Standing>, rescoring: Reply)
    ensures var s := Unchallenged(rescoring);
            Debated(vs, 1, Rounds(s.maxRounds, s.depth), s.critic, s.rebutter, s.halt) == Some(vs)
  {
    var s := Unchallenged(rescoring);
    assert forall i: nat :: !ContestRaises(s.critic(1, i), s.rebutter(1, i)) && Serious(s.critic(1, i)) == [];
  }

  /** The rescoring refutes it: it is returned twice. */
  method RefutedTwice(key: string -> string)
    returns (ok: bool, result: seq<Claim>, ghost c: Claim)
    ensures ok && multiset(result)[c] == 2
  {
    var rescoring := Judged(Some(Refuted), Number(0.0));
    ghost var claims;
    OneCandidate(key);
    OneCited();
    OneContends(rescoring);
    hide Candidates, Cited, Closing, Contenders, Contends, Opened, Verified, Raises;
    ok, result, claims := Research([Extracted(ONE_DRAFT)], ONE_SOURCE, key, Unchallenged(rescoring));
    assert Contenders(ONE_DRAFT, ByRef(ONE_SOURCE), Unchallenged(rescoring))[0] == 0;
    c := claims[0];
  }

  /** The rescoring's reply has the wrong shape: it is lost. */
  method LostClaim(key: string -> string)
    returns (ok: bool, result: seq<Claim>)
    ensures ok && result == []
  {
    ghost var claims;
    OneCandidate(key);
    OneCited();
    OneContends(Malformed);
    hide Candidates, Cited, Closing, Contenders, Contends, Opened, Verified, Raises;
    ok, result, claims := Research([Extracted(ONE_DRAFT)], ONE_SOURCE, key, Unchallenged(Malformed));
    assert Contenders(ONE_DRAFT, ByRef(ONE_SOURCE), Unchallenged(Malformed))[0] == 0;
    assert multiset(result)[claims[0]] == 0;
    assert claims[0] !in result && forall c :: c in result ==> c == claims[0];
    assert forall i :: 0 <= i < |result| ==> result[i] in result;
  }
}
