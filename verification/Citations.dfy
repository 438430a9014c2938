/** Citation markers in a text: extracting them, and cutting those that name no source.
    A text is scanned once, from left to right, as the pattern does.
 */
module Citations {

  const MAX_DIGITS := 3

  /** Where the decimal digits of Unicode 15.0 other than the ASCII ones begin, the last first. */
  const OTHER_ZEROS := [
    0x1fbf0, 0x1e950, 0x1e4f0, 0x1e2f0, 0x1e140, 0x1d7f6, 0x1d7ec, 0x1d7e2, 0x1d7d8, 0x1d7ce, 0x16b50,
    0x16ac0, 0x16a60, 0x11f50, 0x11da0, 0x11d50, 0x11c50, 0x11950, 0x118e0, 0x11730, 0x116c0, 0x11650,
    0x114d0, 0x11450, 0x112f0, 0x111d0, 0x11136, 0x110f0, 0x11066, 0x10d30, 0x104a0, 0xff10, 0xabf0, 0xaa50,
    0xa9f0, 0xa9d0, 0xa900, 0xa8d0, 0xa620, 0x1c50, 0x1c40, 0x1bb0, 0x1b50, 0x1a90, 0x1a80, 0x19d0, 0x1946,
    0x1810, 0x17e0, 0x1090, 0x1040, 0x0f20, 0x0ed0, 0x0e50, 0x0de6, 0x0d66, 0x0ce6, 0x0c66, 0x0be6, 0x0b66,
    0x0ae6, 0x0a66, 0x09e6, 0x0966, 0x07c0, 0x06f0, 0x0660]

  /** A decimal digit of any script, as the pattern takes it. */
  predicate IsDigit(c: char) {
    '0' <= c <= '9' || (c > '~' && IsOtherDigit(c))
  }

  predicate IsOtherDigit(c: char) {
    exists zero :: zero in OTHER_ZEROS && zero <= c as int < zero + 10
  }

  /** `S` and one to three digits. */
  predicate IsRef(r: string) {
    && 2 <= |r| <= 1 + MAX_DIGITS && r[0] == 'S'
    && forall i :: 1 <= i < |r| ==> IsDigit(r[i])
  }

  function Bracketed(r: string): string {
    "[" + r + "]"
  }

  /** The first `n` characters are a marker. */
  predicate StartsMarker(s: string, n: nat) {
    && 4 <= n <= 3 + MAX_DIGITS && n <= |s|
    && s[0] == '[' && s[1] == 'S' && s[n - 1] == ']'
    && forall i :: 2 <= i < n - 1 ==> IsDigit(s[i])
  }

  /** The length of the marker that the text starts with, or nothing. */
  function MarkerLength(s: string): (n: nat)
    ensures n > 0 ==> StartsMarker(s, n)
    ensures forall k :: StartsMarker(s, k) ==> n == k
  {
    if StartsMarker(s, 4) then 4
    else if StartsMarker(s, 5) then 5
    else if StartsMarker(s, 6) then 6
    else 0
  }

  datatype Token = Char(c: char) | Marker(ref: string)

  function Scan(s: string): seq<Token> {
    if s == "" then []
    else
      var n := MarkerLength(s);
      if n > 0 then [Marker(s[1..n - 1])] + Scan(s[n..]) else [Char(s[0])] + Scan(s[1..])
  }

  function Show(t: Token): string {
    if t.Char? then [t.c] else Bracketed(t.ref)
  }

  function Print(ts: seq<Token>): string {
    if ts == [] then "" else Show(ts[0]) + Print(ts[1..])
  }

  function Refs(ts: seq<Token>): seq<string> {
    if ts == [] then []
    else if ts[0].Marker? then [ts[0].ref] + Refs(ts[1..])
    else Refs(ts[1..])
  }

  predicate IsCut(t: Token, valid: set<string>) {
    t.Marker? && t.ref !in valid
  }

  function Keep(ts: seq<Token>, valid: set<string>): seq<Token> {
    if ts == [] then []
    else if IsCut(ts[0], valid) then Keep(ts[1..], valid)
    else [ts[0]] + Keep(ts[1..], valid)
  }

  function Only(refs: seq<string>, valid: set<string>): seq<string> {
    if refs == [] then []
    else if refs[0] in valid then [refs[0]] + Only(refs[1..], valid)
    else Only(refs[1..], valid)
  }

  /** The refs of the markers in a text. */
  function Extracted(text: string): seq<string> {
    Refs(Scan(text))
  }

  function Scrubbed(text: string, valid: set<string>): string {
    Print(Keep(Scan(text), valid))
  }

  lemma ScanStep(s: string, valid: set<string>)
    requires s != ""
    ensures var n := MarkerLength(s);
            if n == 0 then Extracted(s) == Extracted(s[1..]) && Scrubbed(s, valid) == [s[0]] + Scrubbed(s[1..], valid)
            else
              && Extracted(s) == [s[1..n - 1]] + Extracted(s[n..])
              && Scrubbed(s, valid) == (if s[1..n - 1] in valid then s[..n] else "") + Scrubbed(s[n..], valid)
  {
    var n := MarkerLength(s);
    if n > 0 {
      MarkerIsRef(s, n);
      assert s[..n] == Bracketed(s[1..n - 1]);
      assert Scan(s)[1..] == Scan(s[n..]);
    } else {
      assert Scan(s)[1..] == Scan(s[1..]);
    }
  }

  /** `extract_refs`. */
  method ExtractRefs(text: string) returns (refs: seq<string>)
    ensures refs == Extracted(text)
  {
    hide Extracted, Scrubbed, MarkerLength;
    refs := [];
    var i := 0;
    assert text[0..] == text;
    while i < |text|
      invariant i <= |text|
      invariant refs + Extracted(text[i..]) == Extracted(text)
    {
      var rest := text[i..];
      var n := MarkerLength(rest);
      ScanStep(rest, {});
      if n > 0 {
        refs := refs + [rest[1..n - 1]];
        assert rest[n..] == text[i + n..];
        i := i + n;
      } else {
        assert rest[1..] == text[i + 1..];
        i := i + 1;
      }
    }
    assert text[i..] == "";
    NothingExtracted({});
  }

  lemma NothingExtracted(valid: set<string>)
    ensures Extracted("") == [] && Scrubbed("", valid) == ""
  {}

  /** `enforce_valid_refs`. */
  method EnforceValidRefs(text: string, valid: set<string>) returns (out: string, removed: nat)
    ensures out == Scrubbed(text, valid)
    ensures removed == |Extracted(text)| - |Only(Extracted(text), valid)|
  {
    hide Extracted, Scrubbed, MarkerLength;
    out, removed := "", 0;
    var i := 0;
    assert text[0..] == text;
    while i < |text|
      invariant i <= |text|
      invariant out + Scrubbed(text[i..], valid) == Scrubbed(text, valid)
      invariant removed + |Extracted(text[i..])| - |Only(Extracted(text[i..]), valid)|
             == |Extracted(text)| - |Only(Extracted(text), valid)|
    {
      var rest := text[i..];
      var n := MarkerLength(rest);
      ScanStep(rest, valid);
      if n > 0 {
        assert Extracted(rest)[1..] == Extracted(rest[n..]);
        if rest[1..n - 1] in valid {
          out := out + rest[..n];
        } else {
          removed := removed + 1;
        }
        assert rest[n..] == text[i + n..];
        i := i + n;
      } else {
        out := out + [rest[0]];
        assert rest[1..] == text[i + 1..];
        i := i + 1;
      }
    }
    assert text[i..] == "";
    NothingExtracted(valid);
  }

  // ---------------------------------------------------------------------------------------
  // Markers are found where they stand
  // ---------------------------------------------------------------------------------------

  lemma MarkerAtFront(r: string, tail: string)
    requires IsRef(r)
    ensures MarkerLength(Bracketed(r) + tail) == |r| + 2
  {
    hide IsDigit;
    var s := Bracketed(r) + tail;
    assert forall i :: 1 <= i <= |r| ==> s[i] == r[i - 1];
    assert StartsMarker(s, |r| + 2);
  }

  lemma MarkerIsRef(s: string, n: nat)
    requires StartsMarker(s, n)
    ensures IsRef(s[1..n - 1]) && s == Bracketed(s[1..n - 1]) + s[n..]
  {}

  predicate WellFormed(ts: seq<Token>) {
    forall i :: 0 <= i < |ts| && ts[i].Marker? ==> IsRef(ts[i].ref)
  }

  /** Scanning loses nothing. */
  lemma {:induction false} ScanPrints(s: string)
    ensures Print(Scan(s)) == s && WellFormed(Scan(s))
  {
    if s != "" {
      var n := MarkerLength(s);
      if n > 0 {
        MarkerIsRef(s, n);
        ScanPrints(s[n..]);
      } else {
        ScanPrints(s[1..]);
      }
    }
  }

  /** No plain character starts a marker. */
  predicate Canonical(ts: seq<Token>) {
    ts != [] ==> (ts[0].Char? ==> MarkerLength(Print(ts)) == 0) && Canonical(ts[1..])
  }

  lemma {:induction false} ScanIsCanonical(s: string)
    ensures Canonical(Scan(s))
  {
    ScanPrints(s);
    if s != "" {
      var n := MarkerLength(s);
      ScanIsCanonical(if n > 0 then s[n..] else s[1..]);
      assert Scan(s)[1..] == Scan(if n > 0 then s[n..] else s[1..]);
    }
  }

  /** Text without an opening bracket is made of plain characters. */
  lemma {:induction false} PlainUpTo(ts: seq<Token>, n: nat)
    requires n <= |Print(ts)| && forall i :: 0 <= i < n ==> Print(ts)[i] != '['
    ensures n <= |ts| && (forall i :: 0 <= i < n ==> ts[i].Char?)
    ensures Print(ts)[n..] == Print(ts[n..]) && Refs(ts) == Refs(ts[n..])
  {
    if n > 0 {
      assert Print(ts)[0] == Show(ts[0])[0];
      assert Print(ts)[1..] == Print(ts[1..]);
      PlainUpTo(ts[1..], n - 1);
      assert ts[1..][n - 1..] == ts[n..];
    }
  }

  lemma MarkerHasOneBracket(c: char, rest: string, n: nat)
    requires StartsMarker([c] + rest, n)
    ensures n - 1 <= |rest| && forall i :: 0 <= i < n - 1 ==> rest[i] != '['
  {
    var s := [c] + rest;
    forall i | 0 <= i < n - 1 ensures rest[i] != '[' {
      assert rest[i] == s[i + 1];
    }
  }

  lemma PlainFirst(ts: seq<Token>)
    requires ts != [] && ts[0].Char?
    ensures Print(ts) == [ts[0].c] + Print(ts[1..]) && Refs(ts) == Refs(ts[1..])
  {}

  /** A marker that starts at a plain character consists of plain characters. */
  lemma MarkerOfPlainCharacters(ts: seq<Token>, n: nat)
    requires ts != [] && ts[0].Char? && StartsMarker(Print(ts), n)
    ensures n <= |ts| && (forall i :: 0 <= i < n ==> ts[i].Char?)
    ensures Print(ts)[n..] == Print(ts[n..]) && Refs(ts) == Refs(ts[n..])
  {
    hide Print, Refs, IsDigit;
    assert 4 <= n <= |Print(ts)|;
    hide StartsMarker;
    var rest := Print(ts[1..]);
    PlainFirst(ts);
    MarkerHasOneBracket(ts[0].c, rest, n);
    PlainUpTo(ts[1..], n - 1);
    DropOne(ts[0], ts[1..], n);
    DropOne(ts[0].c, rest, n);
    assert ts == [ts[0]] + ts[1..];
  }

  lemma DropOne<T>(x: T, xs: seq<T>, n: nat)
    requires 0 < n <= |xs| + 1
    ensures ([x] + xs)[n..] == xs[n - 1..]
    ensures forall i :: 1 <= i < n ==> ([x] + xs)[i] == xs[i - 1]
  {}

  lemma ScanFirst(s: string)
    requires s != ""
    ensures var n := MarkerLength(s);
            Scan(s) == if n > 0 then [Marker(s[1..n - 1])] + Scan(s[n..]) else [Char(s[0])] + Scan(s[1..])
  {}

  lemma BracketedParts(r: string, tail: string)
    ensures var s := Bracketed(r) + tail;
            s[1..|r| + 1] == r && s[|r| + 2..] == tail
  {}

  lemma RescanMarker(ts: seq<Token>)
    requires ts != [] && ts[0].Marker? && IsRef(ts[0].ref)
    ensures Scan(Print(ts)) == [ts[0]] + Scan(Print(ts[1..]))
  {
    assert Print(ts) == Bracketed(ts[0].ref) + Print(ts[1..]);
    hide MarkerLength, Print, Scan, Bracketed, IsRef, StartsMarker;
    MarkerAtFront(ts[0].ref, Print(ts[1..]));
    BracketedParts(ts[0].ref, Print(ts[1..]));
    ScanFirst(Print(ts));
  }

  lemma RescanChar(ts: seq<Token>)
    requires ts != [] && ts[0].Char?
    ensures var s := Print(ts);
            var n := MarkerLength(s);
            if n == 0 then Scan(s) == [ts[0]] + Scan(Print(ts[1..]))
            else Scan(s) == [Marker(s[1..n - 1])] + Scan(s[n..])
  {
    PlainFirst(ts);
    hide MarkerLength, Print, Scan, StartsMarker;
    assert Print(ts)[1..] == Print(ts[1..]);
    ScanFirst(Print(ts));
  }

  lemma RefsFirst(t: Token, ts: seq<Token>)
    ensures Refs([t] + ts) == (if t.Marker? then [t.ref] else []) + Refs(ts)
  {
    assert ([t] + ts)[1..] == ts;
  }

  /** Printing and scanning again finds the same markers exactly when no plain character
      starts one; otherwise it finds more. */
  lemma {:induction false} RescanFindsMore(ts: seq<Token>)
    requires WellFormed(ts)
    ensures Canonical(ts) ==> Scan(Print(ts)) == ts
    ensures |Refs(Scan(Print(ts)))| >= |Refs(ts)|
    ensures !Canonical(ts) ==> |Refs(Scan(Print(ts)))| > |Refs(ts)|
    decreases |ts|
  {
    if ts != [] {
      var s := Print(ts);
      assert ts == [ts[0]] + ts[1..];
      RefsFirst(ts[0], ts[1..]);
      hide Scan, Print, Refs, MarkerLength, IsRef, StartsMarker;
      if ts[0].Marker? {
        RescanMarker(ts);
        RescanFindsMore(ts[1..]);
        RefsFirst(ts[0], Scan(Print(ts[1..])));
      } else {
        RescanChar(ts);
        var n := MarkerLength(s);
        if n > 0 {
          MarkerOfPlainCharacters(ts, n);
          RescanFindsMore(ts[n..]);
          RefsFirst(Marker(s[1..n - 1]), Scan(s[n..]));
        } else {
          RescanFindsMore(ts[1..]);
          RefsFirst(ts[0], Scan(Print(ts[1..])));
        }
      }
    }
  }

  // ---------------------------------------------------------------------------------------
  // What scrubbing achieves
  // ---------------------------------------------------------------------------------------

  lemma {:induction false} KeepRefs(ts: seq<Token>, valid: set<string>)
    ensures Refs(Keep(ts, valid)) == Only(Refs(ts), valid)
    ensures WellFormed(ts) ==> WellFormed(Keep(ts, valid))
  {
    if ts != [] {
      KeepRefs(ts[1..], valid);
      assert WellFormed(ts) ==> WellFormed(ts[1..]);
    }
  }

  /** Cutting joins plain characters to a marker. */
  predicate Splices(text: string, valid: set<string>) {
    !Canonical(Keep(Scan(text), valid))
  }

  /** The markers of the output are the valid ones of the input, in order, exactly when no cut
      splices plain characters to a marker. */
  lemma ScrubIsExactIff(text: string, valid: set<string>)
    ensures Extracted(Scrubbed(text, valid)) == Only(Extracted(text), valid)
       <==> !Splices(text, valid)
  {
    var kept := Keep(Scan(text), valid);
    ScanPrints(text);
    KeepRefs(Scan(text), valid);
    RescanFindsMore(kept);
  }

  lemma {:induction false} OnlyIsIdempotent(refs: seq<string>, valid: set<string>)
    ensures Only(Only(refs, valid), valid) == Only(refs, valid)
    ensures forall r :: r in Only(refs, valid) ==> r in valid
  {
    if refs != [] {
      OnlyIsIdempotent(refs[1..], valid);
    }
  }

  lemma {:induction false} KeepAllValid(ts: seq<Token>, valid: set<string>)
    requires forall r :: r in Refs(ts) ==> r in valid
    ensures Keep(ts, valid) == ts
  {
    if ts != [] {
      forall r | r in Refs(ts[1..]) ensures r in valid {
        assert r in Refs(ts);
      }
      KeepAllValid(ts[1..], valid);
    }
  }

  /** Without a splice every marker left is valid, and a second pass changes nothing. */
  lemma ScrubbedIsClean(text: string, valid: set<string>)
    requires !Splices(text, valid)
    ensures forall r :: r in Extracted(Scrubbed(text, valid)) ==> r in valid
    ensures Scrubbed(Scrubbed(text, valid), valid) == Scrubbed(text, valid)
  {
    ScrubIsExactIff(text, valid);
    OnlyIsIdempotent(Refs(Scan(text)), valid);
    SecondPassIsIdleIff(Scrubbed(text, valid), valid);
  }

  lemma {:induction false} CutsShorten(ts: seq<Token>, valid: set<string>)
    ensures |Print(Keep(ts, valid))| <= |Print(ts)|
    ensures (exists r :: r in Refs(ts) && r !in valid) ==> |Print(Keep(ts, valid))| < |Print(ts)|
  {
    if ts != [] {
      CutsShorten(ts[1..], valid);
    }
  }

  /** A second pass changes nothing exactly when no invalid marker is left. */
  lemma SecondPassIsIdleIff(text: string, valid: set<string>)
    ensures Scrubbed(text, valid) == text <==> forall r :: r in Extracted(text) ==> r in valid
  {
    ScanPrints(text);
    CutsShorten(Scan(text), valid);
    if forall r :: r in Extracted(text) ==> r in valid {
      KeepAllValid(Scan(text), valid);
    }
  }

  // ---------------------------------------------------------------------------------------
  // A local condition against splices
  // ---------------------------------------------------------------------------------------

  /** A marker can start with this and go on. */
  predicate IsProperPrefix(p: string) {
    && 1 <= |p| <= 2 + MAX_DIGITS && p[0] == '[' && (|p| > 1 ==> p[1] == 'S')
    && forall i :: 2 <= i < |p| ==> IsDigit(p[i])
  }

  function LeadingPlain(ts: seq<Token>): (n: nat)
    ensures n <= |ts| && (forall i :: 0 <= i < n ==> ts[i].Char?)
    ensures n < |ts| ==> ts[n].Marker?
  {
    if ts == [] || ts[0].Marker? then 0 else 1 + LeadingPlain(ts[1..])
  }

  /** No cut marker stands right behind a proper prefix of a marker. */
  predicate CutsAreApart(ts: seq<Token>, valid: set<string>) {
    ts != [] ==>
      var n := LeadingPlain(ts);
      && (n < |ts| && IsCut(ts[n], valid) ==> !IsProperPrefix(Print(ts[..n])))
      && CutsAreApart(ts[1..], valid)
  }

  lemma {:induction false} PrintPlain(ts: seq<Token>, n: nat)
    requires n <= |ts| && forall i :: 0 <= i < n ==> ts[i].Char?
    ensures Print(ts) == Print(ts[..n]) + Print(ts[n..]) && |Print(ts[..n])| == n
  {
    if n > 0 {
      PrintPlain(ts[1..], n - 1);
      assert ts[..n][1..] == ts[1..][..n - 1] && ts[1..][n - 1..] == ts[n..];
    }
  }

  lemma {:induction false} KeepPlain(ts: seq<Token>, valid: set<string>, n: nat)
    requires n <= |ts| && forall i :: 0 <= i < n ==> ts[i].Char?
    ensures Keep(ts, valid) == ts[..n] + Keep(ts[n..], valid)
  {
    if n > 0 {
      KeepPlain(ts[1..], valid, n - 1);
      assert ts[1..][n - 1..] == ts[n..] && ts[..n] == [ts[0]] + ts[1..][..n - 1];
    }
  }

  lemma PrefixOfMarker(s: string, n: nat, k: nat)
    requires StartsMarker(s, n) && 0 < k < n
    ensures IsProperPrefix(s[..k])
  {}

  lemma SameStart(a: string, b: string, k: nat)
    requires k <= |a| && k <= |b| && a[..k] == b[..k]
    ensures forall n: nat :: n <= k ==> (StartsMarker(a, n) <==> StartsMarker(b, n))
  {
    assert forall i :: 0 <= i < k ==> a[i] == a[..k][i] == b[i];
  }

  lemma NothingSplicedAtFront(ts: seq<Token>, valid: set<string>)
    requires ts != [] && ts[0].Char? && Canonical(ts) && CutsAreApart(ts, valid)
    ensures MarkerLength(Print(Keep(ts, valid))) == 0
  {
    var kept, k := Keep(ts, valid), LeadingPlain(ts);
    KeepPlain(ts, valid, k);
    PrintPlain(kept, k);
    PrintPlain(ts, k);
    assert kept[..k] == ts[..k];
    var before, after := Print(ts), Print(kept);
    SameStart(before, after, k);
    assert k < |ts| && !IsCut(ts[k], valid) ==> kept[k] == ts[k];
    var n := MarkerLength(after);
    if n > 0 {
      MarkerOfPlainCharacters(kept, n);
      if k < n {
        PrefixOfMarker(after, n, k);
      }
    }
  }

  lemma {:induction false} CutsApartKeepCanonical(ts: seq<Token>, valid: set<string>)
    requires Canonical(ts) && CutsAreApart(ts, valid)
    ensures Canonical(Keep(ts, valid))
  {
    if ts != [] {
      CutsApartKeepCanonical(ts[1..], valid);
      if ts[0].Char? {
        NothingSplicedAtFront(ts, valid);
      }
      assert !IsCut(ts[0], valid) ==> Keep(ts, valid)[1..] == Keep(ts[1..], valid);
    }
  }

  /** If no cut marker stands right behind a proper marker prefix, scrubbing is exact. */
  lemma CutsApartDoNotSplice(text: string, valid: set<string>)
    requires CutsAreApart(Scan(text), valid)
    ensures !Splices(text, valid)
  {
    ScanIsCanonical(text);
    CutsApartKeepCanonical(Scan(text), valid);
  }

  lemma TailOfSplice()
    ensures Extracted("[S99]98]") == ["S99"] && Scrubbed("[S99]98]", {}) == "98]"
  {
    hide Extracted, Scrubbed, MarkerLength;
    assert StartsMarker("[S99]98]", 5);
    ScanStep("[S99]98]", {});
    assert "[S99]98]"[5..] == "98]" && "[S99]98]"[1..4] == "S99";
    NoMarker("98]", {});
    NoMarker("8]", {});
    NoMarker("]", {});
    NothingExtracted({});
    assert "98]"[1..] == "8]" && "8]"[1..] == "]" && "]"[1..] == "";
  }

  lemma SplicedMarker()
    ensures Extracted("[S98]") == ["S98"]
  {
    hide Extracted, Scrubbed, MarkerLength;
    assert StartsMarker("[S98]", 5) && "[S98]"[1..4] == "S98" && "[S98]"[5..] == "";
    ScanStep("[S98]", {});
    NothingExtracted({});
  }

  /** One pass is not enough in general: cutting `[S99]` leaves `[S98]`, which names nothing. */
  lemma SpliceLeavesInvalidMarker()
    ensures Scrubbed("[S[S99]98]", {}) == "[S98]" && Extracted("[S98]") == ["S98"]
    ensures Splices("[S[S99]98]", {})
  {
    hide Extracted, Scrubbed, MarkerLength, Splices;
    var s := "[S[S99]98]";
    assert !StartsMarker(s, 4) && !StartsMarker(s, 5) && !StartsMarker(s, 6);
    NoMarker(s, {});
    NoMarker(s[1..], {});
    assert s[1..][1..] == "[S99]98]";
    hide StartsMarker;
    TailOfSplice();
    SplicedMarker();
    assert Scrubbed(s, {}) == "[S98]" && Extracted(s) == ["S99"];
    OnlyIsIdempotent(Extracted(s), {});
    ScrubIsExactIff(s, {});
  }

  lemma NoMarker(s: string, valid: set<string>)
    requires s != "" && !StartsMarker(s, 4) && !StartsMarker(s, 5) && !StartsMarker(s, 6)
    ensures Extracted(s) == Extracted(s[1..]) && Scrubbed(s, valid) == [s[0]] + Scrubbed(s[1..], valid)
  {
    ScanStep(s, valid);
  }

  /** Digits of other scripts are digits: here an Arabic one and a Persian one. */
  lemma OtherScripts()
    ensures IsDigit('\U{0660}') && IsDigit('\U{0669}') && IsDigit('\U{06F0}') && IsDigit('\U{06F9}')
    ensures !IsDigit('A') && !IsDigit(']')
  {
    assert OTHER_ZEROS[66] == 0x0660 && OTHER_ZEROS[65] == 0x06f0;
    assert OTHER_ZEROS[66] in OTHER_ZEROS && OTHER_ZEROS[65] in OTHER_ZEROS;
  }
}
