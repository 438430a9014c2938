/** De-duplicating search results into numbered sources, and citing those by number. */
module Searcher {
  import opened Citations
  import opened Numerals
  import opened Sources

  const DOMAIN_CAP := 3

  /** A search result, with the credibility its address and score amount to. */
  datatype Result = Result(url: string, domain: string, credibility: real)

  /** The results of one query, unless the query failed. */
  datatype Batch = Failed | Found(results: seq<Result>)

  function RefName(n: nat): string {
    "S" + Decimal(n)
  }

  function UrlsOf(sources: seq<Source>): set<string> {
    set s | s in sources :: s.url
  }

  function OnDomain(sources: seq<Source>, domain: string): nat {
    if sources == [] then 0
    else OnDomain(sources[..|sources| - 1], domain)
         + if sources[|sources| - 1].domain == domain then 1 else 0
  }

  predicate Admits(sources: seq<Source>, r: Result) {
    r.url !in UrlsOf(sources) && OnDomain(sources, r.domain) < DOMAIN_CAP
  }

  function Admitted(sources: seq<Source>, r: Result): seq<Source> {
    if Admits(sources, r)
    then sources + [Source(RefName(|sources| + 1), r.url, r.domain, r.credibility)]
    else sources
  }

  function Selected(results: seq<Result>): seq<Source> {
    if results == [] then []
    else Admitted(Selected(results[..|results| - 1]), results[|results| - 1])
  }

  function Flat(batches: seq<Batch>): seq<Result> {
    if batches == [] then []
    else
      var last := batches[|batches| - 1];
      Flat(batches[..|batches| - 1]) + if last.Found? then last.results else []
  }

  /** The counters of the loop agree with the sources chosen so far. */
  ghost predicate Counted(sources: seq<Source>, urls: set<string>, domains: map<string, nat>) {
    && urls == UrlsOf(sources)
    && forall d :: OnDomain(sources, d) == if d in domains then domains[d] else 0
  }

  lemma CountOne(sources: seq<Source>, urls: set<string>, domains: map<string, nat>, s: Source)
    requires Counted(sources, urls, domains)
    ensures Counted(sources + [s], urls + {s.url},
      domains[s.domain := (if s.domain in domains then domains[s.domain] else 0) + 1])
  {
    assert (sources + [s])[..|sources|] == sources;
  }

  lemma SelectNext(seen: seq<Result>, results: seq<Result>, i: nat)
    requires i < |results|
    ensures Selected(seen + results[..i + 1]) == Admitted(Selected(seen + results[..i]), results[i])
  {
    assert (seen + results[..i + 1])[..|seen| + i] == seen + results[..i];
  }

  /** The body of the inner loop. */
  method Take(r: Result, sources: seq<Source>, urls: set<string>, domains: map<string, nat>)
    returns (sources': seq<Source>, urls': set<string>, domains': map<string, nat>)
    requires Counted(sources, urls, domains)
    ensures Counted(sources', urls', domains') && sources' == Admitted(sources, r)
  {
    sources', urls', domains' := sources, urls, domains;
    if r.url in urls {
      return;
    }
    var count := if r.domain in domains then domains[r.domain] else 0;
    if count >= DOMAIN_CAP {
      return;
    }
    var source := Source(RefName(|sources| + 1), r.url, r.domain, r.credibility);
    CountOne(sources, urls, domains, source);
    urls' := urls + {r.url};
    domains' := domains[r.domain := count + 1];
    sources' := sources + [source];
  }

  /** The results of every query that came back stand in order, behind those of the earlier ones;
      a query that failed leaves those alone. */
  lemma {:induction false} FlatHolds(batches: seq<Batch>, b: nat)
    requires b < |batches|
    ensures Flat(batches[..b]) <= Flat(batches)
    ensures batches[b].Found? ==> Flat(batches[..b]) + batches[b].results <= Flat(batches)
    ensures b == |batches| - 1 ==>
      Flat(batches) == if batches[b].Failed? then Flat(batches[..b]) else Flat(batches[..b]) + batches[b].results
  {
    var n := |batches| - 1;
    if b < n {
      FlatHolds(batches[..n], b);
      assert batches[..n][..b] == batches[..b];
    }
  }

  /** `SearcherAgent.run` on the batches that came back. */
  method Search(batches: seq<Batch>) returns (sources: seq<Source>)
    ensures sources == Selected(Flat(batches)) && Sound(sources, Flat(batches))
  {
    NothingSelected();
    hide Selected, Admitted, Counted, Sound;
    sources := [];
    var urls: set<string> := {};
    var domains: map<string, nat> := map[];
    for b := 0 to |batches|
      invariant Counted(sources, urls, domains)
      invariant sources == Selected(Flat(batches[..b]))
    {
      ghost var seen := Flat(batches[..b]);
      assert batches[..b + 1][..b] == batches[..b];
      if batches[b].Found? {
        var results := batches[b].results;
        assert seen + results[..0] == seen;
        for i := 0 to |results|
          invariant Counted(sources, urls, domains)
          invariant sources == Selected(seen + results[..i])
        {
          SelectNext(seen, results, i);
          sources, urls, domains := Take(results[i], sources, urls, domains);
        }
        assert results[..|results|] == results;
      } else {
        assert seen + [] == seen;
      }
    }
    assert batches[..|batches|] == batches;
    SelectedIsSound(Flat(batches));
  }

  lemma NothingSelected()
    ensures Selected([]) == [] && Counted([], {}, map[]) && Sound([], [])
  {}

  // ---------------------------------------------------------------------------------------
  // The selection is greedy and maximal
  // ---------------------------------------------------------------------------------------

  ghost predicate Sound(sources: seq<Source>, results: seq<Result>) {
    && (forall i, j :: 0 <= i < j < |sources| ==> sources[i].url != sources[j].url)
    && (forall d :: OnDomain(sources, d) <= 3)
    && (forall i :: 0 <= i < |sources| ==> sources[i].ref == RefName(i + 1))
    && (forall s :: s in sources ==> Result(s.url, s.domain, s.credibility) in results)
  }

  lemma OneMoreOnDomain(sources: seq<Source>, s: Source, d: string)
    ensures OnDomain(sources + [s], d) == OnDomain(sources, d) + if s.domain == d then 1 else 0
  {
    assert (sources + [s])[..|sources|] == sources;
  }

  lemma AdmittingKeepsSound(sources: seq<Source>, results: seq<Result>, r: Result)
    requires Sound(sources, results)
    ensures Sound(Admitted(sources, r), results + [r])
  {
    hide RefName, OnDomain;
    if Admits(sources, r) {
      var s := Source(RefName(|sources| + 1), r.url, r.domain, r.credibility);
      assert Admitted(sources, r) == sources + [s];
      forall d ensures OnDomain(sources + [s], d) <= 3 {
        OneMoreOnDomain(sources, s, d);
      }
      forall i | 0 <= i < |sources| ensures sources[i].url != s.url {
        assert sources[i] in sources;
      }
    }
  }

  lemma SelectedLast(results: seq<Result>)
    requires results != []
    ensures Selected(results) == Admitted(Selected(results[..|results| - 1]), results[|results| - 1])
  {
    hide Admitted;
  }

  /** The selected URLs are distinct, no domain exceeds its cap, the references are `S1` to
      `Sn` in order, and every source is a result.
   */
  lemma {:induction false} SelectedIsSound(results: seq<Result>)
    ensures Sound(Selected(results), results)
    decreases |results|
  {
    hide Sound, Selected, Admitted;
    if results == [] {
      NothingSelected();
    } else {
      var n := |results| - 1;
      var earlier := results[..n];
      SelectedIsSound(earlier);
      SelectedLast(results);
      AdmittingKeepsSound(Selected(earlier), earlier, results[n]);
      assert results == earlier + [results[n]];
    }
  }

  /** No two sources share a reference, so looking a reference up finds the source it was
      given to, and every source can be found.
   */
  lemma SelectedRefsDiffer(results: seq<Result>)
    ensures RefsDiffer(Selected(results))
    ensures forall i :: 0 <= i < |Selected(results)| ==> FoundByName(Selected(results), i)
  {
    hide Selected, RefName, OnDomain, ByRef;
    var sources := Selected(results);
    SelectedIsSound(results);
    forall i, j | 0 <= i < j < |sources| ensures sources[i].ref != sources[j].ref {
      NamesDiffer(i + 1, j + 1);
    }
    ByRefFindsEvery(sources);
    forall i | 0 <= i < |sources| ensures FoundByName(sources, i) {
      assert sources[i].ref == RefName(i + 1);
    }
  }

  predicate FoundByName(sources: seq<Source>, i: nat)
    requires i < |sources|
  {
    RefName(i + 1) in ByRef(sources) && ByRef(sources)[RefName(i + 1)] == sources[i]
  }

  lemma NamesDiffer(m: nat, n: nat)
    requires m != n
    ensures RefName(m) != RefName(n)
  {
    if RefName(m) == RefName(n) {
      assert Decimal(m) == RefName(m)[1..] == RefName(n)[1..] == Decimal(n);
      DecimalInjective(m, n);
    }
  }

  lemma {:induction false} SelectedGrows(results: seq<Result>, k: nat)
    requires k <= |results|
    ensures Selected(results[..k]) <= Selected(results)
  {
    var n := |results| - 1;
    if k <= n {
      assert results[..n][..k] == results[..k];
      SelectedGrows(results[..n], k);
    } else {
      assert results[..k] == results;
    }
  }

  lemma {:induction false} MoreSourcesCountMore(sources: seq<Source>, more: seq<Source>, domain: string)
    requires sources <= more
    ensures OnDomain(sources, domain) <= OnDomain(more, domain)
  {
    if |sources| < |more| {
      MoreSourcesCountMore(sources, more[..|more| - 1], domain);
    } else {
      assert sources == more;
    }
  }

  lemma AfterItsTurn(results: seq<Result>, i: nat)
    requires i < |results|
    ensures Selected(results[..i + 1]) == Admitted(Selected(results[..i]), results[i])
    ensures Selected(results[..i + 1]) <= Selected(results)
  {
    hide Admitted;
    var upTo := results[..i + 1];
    assert upTo[..i] == results[..i] && upTo[i] == results[i];
    assert Selected(upTo) == Admitted(Selected(upTo[..i]), upTo[i]);
    SelectedGrows(results, i + 1);
  }

  lemma MoreSourcesMoreUrls(sources: seq<Source>, more: seq<Source>)
    requires sources <= more
    ensures UrlsOf(sources) <= UrlsOf(more)
  {
    assert forall s :: s in sources ==> s in more;
  }

  /** What a result does when its turn comes. */
  lemma TurnOf(results: seq<Result>, i: nat)
    requires i < |results|
    ensures
      var r, before := results[i], Selected(results[..i]);
      Selected(results[..i + 1]) ==
      if (forall s :: s in before ==> s.url != r.url) && OnDomain(before, r.domain) < 3
      then before + [Source("S" + Decimal(|before| + 1), r.url, r.domain, r.credibility)]
      else before
  {
    AfterItsTurn(results, i);
    hide Selected, OnDomain;
    assert Admits(Selected(results[..i]), results[i]) <==>
      (forall s :: s in Selected(results[..i]) ==> s.url != results[i].url)
      && OnDomain(Selected(results[..i]), results[i].domain) < 3;
  }

  /** The URL of every result is among the sources, unless its domain was at the cap when its
      turn came: no result was passed over for another reason. */
  lemma RejectedForCause(results: seq<Result>, i: nat)
    requires i < |results|
    ensures results[i].url in UrlsOf(Selected(results))
      || OnDomain(Selected(results[..i]), results[i].domain) == 3
  {
    var before := Selected(results[..i]);
    AfterItsTurn(results, i);
    SelectedIsSound(results[..i]);
    MoreSourcesMoreUrls(Selected(results[..i + 1]), Selected(results));
    MoreSourcesMoreUrls(before, Selected(results[..i + 1]));
    if Admits(before, results[i]) {
      var r := results[i];
      assert Source(RefName(|before| + 1), r.url, r.domain, r.credibility) in Admitted(before, r);
    }
  }

  /** The selection is maximal: no result can be added to it. */
  lemma SelectedIsMaximal(results: seq<Result>, i: nat)
    requires i < |results|
    ensures results[i].url in UrlsOf(Selected(results)) || OnDomain(Selected(results), results[i].domain) == 3
  {
    SelectedIsSound(results);
    RejectedForCause(results, i);
    AfterItsTurn(results, i);
    var before := Selected(results[..i]);
    assert before <= Admitted(before, results[i]);
    MoreSourcesCountMore(before, Selected(results), results[i].domain);
  }

  // ---------------------------------------------------------------------------------------
  // Printing and extracting references
  // ---------------------------------------------------------------------------------------

  /** The markers behind a claim, as the synthesizer prints them. */
  function PrintMarkers(refs: seq<string>): string {
    if refs == [] then "" else Bracketed(refs[0]) + PrintMarkers(refs[1..])
  }

  function Names(ns: seq<nat>): (names: seq<string>)
    ensures |names| == |ns|
  {
    seq(|ns|, i requires 0 <= i < |ns| => RefName(ns[i]))
  }

  lemma NameIsRefIff(n: nat)
    ensures IsRef(RefName(n)) <==> n <= 999
  {
    DecimalDigits(n);
    DecimalLength(n);
  }

  lemma ExtractMarker(r: string, tail: string)
    requires IsRef(r)
    ensures Extracted(Bracketed(r) + tail) == [r] + Extracted(tail)
  {
    hide IsDigit, MarkerLength, Extracted, Scrubbed;
    var s := Bracketed(r) + tail;
    MarkerAtFront(r, tail);
    ScanStep(s, {});
    assert s[1..|r| + 1] == r && s[|r| + 2..] == tail;
  }

  lemma {:induction false} ExtractPlain(p: string, tail: string)
    requires forall i :: 0 <= i < |p| ==> p[i] != '['
    ensures Extracted(p + tail) == Extracted(tail)
  {
    if p == "" {
      assert p + tail == tail;
    } else {
      NoMarker(p + tail, {});
      assert (p + tail)[1..] == p[1..] + tail;
      ExtractPlain(p[1..], tail);
    }
  }

  lemma LongNameIsNoMarker(n: nat, tail: string)
    requires n > 999
    ensures var s := Bracketed(RefName(n)) + tail;
            !StartsMarker(s, 4) && !StartsMarker(s, 5) && !StartsMarker(s, 6)
    ensures forall i :: 0 <= i < |RefName(n)| ==> RefName(n)[i] != '['
  {
    DecimalDigits(n);
    DecimalLength(n);
    hide Decimal, IsDigit;
    var s := Bracketed(RefName(n)) + tail;
    assert forall i :: 1 <= i <= |Decimal(n)| ==> RefName(n)[i] == Decimal(n)[i - 1];
    assert forall i :: 0 <= i < |RefName(n)| ==> s[i + 1] == RefName(n)[i];
    assert s[3] != ']' && s[4] != ']' && s[5] != ']';
  }

  /** A number of four digits or more is not recognised as a reference. */
  lemma ExtractLongName(n: nat, tail: string)
    requires n > 999
    ensures Extracted(Bracketed(RefName(n)) + tail) == Extracted(tail)
  {
    hide StartsMarker, Extracted, Scrubbed, RefName;
    var s, p := Bracketed(RefName(n)) + tail, RefName(n) + "]";
    LongNameIsNoMarker(n, tail);
    NoMarker(s, {});
    assert s[1..] == p + tail;
    ExtractPlain(p, tail);
  }

  /** Extracting the printed markers gives back exactly the references numbered up to 999. */
  lemma {:induction false} ExtractedNames(ns: seq<nat>)
    ensures |Extracted(PrintMarkers(Names(ns)))| <= |ns|
    ensures (forall n :: n in ns ==> n <= 999) ==> Extracted(PrintMarkers(Names(ns))) == Names(ns)
    ensures (exists n :: n in ns && n > 999) ==> |Extracted(PrintMarkers(Names(ns)))| < |ns|
  {
    if ns != [] {
      var tail := PrintMarkers(Names(ns[1..]));
      assert ns == [ns[0]] + ns[1..] && ns[0] in ns;
      assert Names(ns)[1..] == Names(ns[1..]);
      ExtractedNames(ns[1..]);
      NameIsRefIff(ns[0]);
      hide Extracted;
      assert PrintMarkers(Names(ns)) == Bracketed(RefName(ns[0])) + tail;
      assert forall n :: n in ns[1..] ==> n in ns;
      if ns[0] <= 999 {
        ExtractMarker(RefName(ns[0]), tail);
        assert Names(ns) == [RefName(ns[0])] + Names(ns[1..]);
      } else {
        ExtractLongName(ns[0], tail);
      }
    }
  }

  lemma PrintThenExtractIff(ns: seq<nat>)
    ensures Extracted(PrintMarkers(Names(ns))) == Names(ns) <==> forall n :: n in ns ==> n <= 999
  {
    ExtractedNames(ns);
  }
}
