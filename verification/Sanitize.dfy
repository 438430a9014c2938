/** Fencing untrusted text: the fence is replaced in the text, the text is truncated, and the
    result is put between two fences. Markup stripping and what the injection patterns find and
    replace are arbitrary functions here: what holds of the fence holds whatever they do.
 */
module Sanitize {

  const FENCE := "-----UNTRUSTED-WEB-CONTENT-----"
  const FILTERED := "[filtered]"
  const TRUNCATED := " \U{2026}[truncated]"
  const MAX_CHARS := 6000

  /** The pattern occurs at the position. */
  predicate Occurs(s: string, f: string, i: nat) {
    i + |f| <= |s| && s[i..i + |f|] == f
  }

  ghost predicate Contains(s: string, f: string) {
    exists i: nat :: Occurs(s, f, i)
  }

  /** `str.replace`: non-overlapping occurrences, from left to right. */
  function ReplaceAll(s: string, f: string, r: string): string
    requires f != ""
  {
    if s == "" then ""
    else if f <= s then r + ReplaceAll(s[|f|..], f, r)
    else [s[0]] + ReplaceAll(s[1..], f, r)
  }

  function Truncated(s: string, max: nat): string {
    if |s| > max then s[..max] + TRUNCATED else s
  }

  /** An injection pattern: its source, whether it occurs, and the text with it filtered. */
  datatype Pattern = Pattern(source: string, occurs: string -> bool, filter: string -> string)

  function Filtered(s: string, patterns: seq<Pattern>): string {
    if patterns == [] then s else patterns[|patterns| - 1].filter(Filtered(s, patterns[..|patterns| - 1]))
  }

  /** The sources of the patterns that occur, in order. */
  function Found(s: string, patterns: seq<Pattern>): seq<string> {
    if patterns == [] then []
    else (if patterns[0].occurs(s) then [patterns[0].source] else []) + Found(s, patterns[1..])
  }

  /** One more pattern is looked for behind the others, in the same text. */
  lemma {:induction false} FoundAppend(s: string, patterns: seq<Pattern>, p: Pattern)
    ensures Found(s, patterns + [p]) == Found(s, patterns) + if p.occurs(s) then [p.source] else []
  {
    if patterns == [] {
      assert patterns + [p] == [p] && Found(s, []) == [] && [p][1..] == [];
    } else {
      FoundAppend(s, patterns[1..], p);
      assert (patterns + [p])[1..] == patterns[1..] + [p];
    }
  }

  function Safe(text: string, strip: string -> string, patterns: seq<Pattern>, max: nat): string {
    Truncated(ReplaceAll(Filtered(strip(text), patterns), FENCE, FILTERED), max)
  }

  /** Every filter removes its own pattern, and none brings back another. */
  ghost predicate Removing(patterns: seq<Pattern>) {
    && (forall i, s :: 0 <= i < |patterns| ==> !patterns[i].occurs(patterns[i].filter(s)))
    && (forall i, j, s :: 0 <= i < |patterns| && 0 <= j < |patterns| && !patterns[j].occurs(s) ==>
          !patterns[j].occurs(patterns[i].filter(s)))
  }

  /** `sanitize_content`: the findings are those of the text before it is filtered. */
  method SanitizeContent(text: string, strip: string -> string, patterns: seq<Pattern>, max: nat)
    returns (cleaned: string, findings: seq<string>, ghost stages: seq<string>)
    ensures cleaned == Safe(text, strip, patterns, max) && findings == Found(strip(text), patterns)
    ensures !Contains(cleaned, FENCE) && |cleaned| <= max + 13
    ensures |stages| == |patterns| + 1 && stages[0] == strip(text)
    ensures forall i :: 0 <= i < |patterns| ==> stages[i + 1] == patterns[i].filter(stages[i])
    ensures var replaced := ReplaceAll(stages[|patterns|], "-----UNTRUSTED-WEB-CONTENT-----", "[filtered]");
            cleaned == if |replaced| <= max then replaced else replaced[..max] + " \U{2026}[truncated]"
    ensures !Contains(stages[|patterns|], FENCE) && |stages[|patterns|]| <= max ==> cleaned == stages[|patterns|]
    ensures Removing(patterns) ==> forall i :: 0 <= i < |patterns| ==> !patterns[i].occurs(stages[|patterns|])
  {
    cleaned := strip(text);
    findings := Found(cleaned, patterns);
    stages := [cleaned];
    for i := 0 to |patterns|
      invariant cleaned == Filtered(strip(text), patterns[..i])
      invariant |stages| == i + 1 && stages[0] == strip(text) && stages[i] == cleaned
      invariant forall k :: 0 <= k < i ==> stages[k + 1] == patterns[k].filter(stages[k])
      invariant Removing(patterns) ==> forall k :: 0 <= k < i ==> !patterns[k].occurs(cleaned)
    {
      assert patterns[..i + 1][..i] == patterns[..i];
      cleaned := patterns[i].filter(cleaned);
      stages := stages + [cleaned];
    }
    assert patterns[..|patterns|] == patterns;
    SafeHasNoFence(text, strip, patterns, max);
    if !Contains(cleaned, FENCE) {
      NothingToReplace(cleaned, FENCE, FILTERED);
    }
    cleaned := ReplaceAll(cleaned, FENCE, FILTERED);
    if |cleaned| > max {
      cleaned := cleaned[..max] + TRUNCATED;
    }
  }

  function Wrapped(tag: string, safe: string): string {
    FENCE + "\n[" + tag + "]\n" + safe + "\n" + FENCE
  }

  /** `wrap_untrusted`. */
  method WrapUntrusted(tag: string, text: string, strip: string -> string, patterns: seq<Pattern>)
    returns (block: string, ghost safe: string)
    ensures block == FENCE + "\n[" + tag + "]\n" + safe + "\n" + FENCE
    ensures safe == Safe(text, strip, patterns, 6000)
    ensures FencedExactly(block) <==> !Contains(tag, FENCE)
  {
    var cleaned, _, _ := SanitizeContent(text, strip, patterns, MAX_CHARS);
    FencedExactlyIff(tag, cleaned);
    block := FENCE + "\n[" + tag + "]\n" + cleaned + "\n" + FENCE;
    safe := cleaned;
  }

  // ---------------------------------------------------------------------------------------
  // Replacing leaves no occurrence
  // ---------------------------------------------------------------------------------------

  predicate Foreign(s: string, f: string) {
    forall i :: 0 <= i < |s| ==> s[i] !in f
  }

  lemma ReplacementAtFront(s: string, f: string, r: string)
    requires f != "" && r != "" && f <= s
    ensures ReplaceAll(s, f, r)[0] == r[0]
  {}

  /** Where the replaced text starts with characters of the pattern only, so did the original. */
  lemma {:induction false} ReplaceKeepsStart(s: string, f: string, r: string, n: nat)
    requires f != "" && r != "" && Foreign(r, f) && n <= |ReplaceAll(s, f, r)|
    requires forall i :: 0 <= i < n ==> ReplaceAll(s, f, r)[i] in f
    ensures n <= |s| && ReplaceAll(s, f, r)[..n] == s[..n]
    decreases n
  {
    if n > 0 {
      var out := ReplaceAll(s, f, r);
      if f <= s {
        ReplacementAtFront(s, f, r);
      } else {
        var rest := ReplaceAll(s[1..], f, r);
        assert out == [s[0]] + rest;
        forall i | 0 <= i < n - 1 ensures rest[i] in f {
          assert rest[i] == out[i + 1];
        }
        ReplaceKeepsStart(s[1..], f, r, n - 1);
        assert out[..n] == [s[0]] + rest[..n - 1];
        assert s[..n] == [s[0]] + s[1..][..n - 1];
      }
    }
  }

  // ---------------------------------------------------------------------------------------
  // Occurrences do not cross a foreign character
  // ---------------------------------------------------------------------------------------

  lemma OccursAcross(a: string, c: char, b: string, f: string, i: nat)
    requires f != "" && c !in f
    ensures Occurs(a + [c] + b, f, i)
       <==> Occurs(a, f, i) || (i > |a| && Occurs(b, f, i - |a| - 1))
  {
    var s := a + [c] + b;
    if i + |f| <= |a| {
      assert s[i..i + |f|] == a[i..i + |f|];
    } else if i > |a| {
      if i + |f| <= |s| {
        assert s[i..i + |f|] == b[i - |a| - 1..i - |a| - 1 + |f|];
      }
    } else if i + |f| <= |s| {
      assert s[i..i + |f|][|a| - i] == c;
    }
  }

  lemma {:induction false} OccursBehindForeign(a: string, t: string, f: string, i: nat)
    requires f != "" && t != "" && Foreign(t, f)
    ensures Occurs(a + t, f, i) <==> Occurs(a, f, i)
    decreases |t|
  {
    var n := |t| - 1;
    assert a + t == (a + t[..n]) + [t[n]] + "";
    OccursAcross(a + t[..n], t[n], "", f, i);
    if n > 0 {
      OccursBehindForeign(a, t[..n], f, i);
    } else {
      assert a + t[..n] == a;
    }
  }

  lemma OccursShifts(c: char, s: string, f: string, i: nat)
    requires i > 0
    ensures Occurs([c] + s, f, i) <==> Occurs(s, f, i - 1)
  {
    if i + |f| <= |s| + 1 {
      assert ([c] + s)[i..i + |f|] == s[i - 1..i - 1 + |f|];
    }
  }

  lemma {:induction false} OccursAheadForeign(r: string, s: string, f: string, i: nat)
    requires f != "" && Foreign(r, f)
    ensures Occurs(r + s, f, i) <==> i >= |r| && Occurs(s, f, i - |r|)
    decreases |r|
  {
    if r == "" {
      assert r + s == s;
    } else {
      assert r + s == "" + [r[0]] + (r[1..] + s);
      OccursAcross("", r[0], r[1..] + s, f, i);
      if i > 0 {
        OccursAheadForeign(r[1..], s, f, i - 1);
      }
    }
  }

  /** No occurrence of the pattern is left, and the replacement creates none. */
  lemma {:induction false} ReplacedHasNone(s: string, f: string, r: string, i: nat)
    requires f != "" && r != "" && Foreign(r, f)
    ensures !Occurs(ReplaceAll(s, f, r), f, i)
    decreases |s|
  {
    if s != "" {
      var out := ReplaceAll(s, f, r);
      if f <= s {
        var rest := ReplaceAll(s[|f|..], f, r);
        OccursAheadForeign(r, rest, f, i);
        if i >= |r| {
          ReplacedHasNone(s[|f|..], f, r, i - |r|);
        }
      } else if i == 0 {
        if Occurs(out, f, 0) {
          assert forall k :: 0 <= k < |f| ==> out[k] == out[0..0 + |f|][k] == f[k];
          ReplaceKeepsStart(s, f, r, |f|);
        }
      } else {
        OccursShifts(s[0], ReplaceAll(s[1..], f, r), f, i);
        ReplacedHasNone(s[1..], f, r, i - 1);
      }
    }
  }

  lemma OccursInPrefix(s: string, n: nat, f: string, i: nat)
    requires n <= |s| && Occurs(s[..n], f, i)
    ensures Occurs(s, f, i)
  {
    assert s[..n][i..i + |f|] == s[i..i + |f|];
  }

  /** The fence is written in capitals and dashes. */
  predicate IsFenceChar(c: char) {
    c == '-' || 'A' <= c <= 'Z'
  }

  lemma FenceChars()
    ensures |FENCE| == 31
    ensures forall c :: c in FENCE ==> IsFenceChar(c)
  {
    forall c | c in FENCE ensures IsFenceChar(c) {
      var i :| 0 <= i < 31 && FENCE[i] == c;
    }
  }

  lemma FenceAlphabet()
    ensures Foreign(FILTERED, FENCE) && Foreign(TRUNCATED, FENCE)
    ensures '\n' !in FENCE && '[' !in FENCE && ']' !in FENCE
  {
    FenceChars();
    hide FENCE;
    assert forall i :: 0 <= i < |FILTERED| ==> !IsFenceChar(FILTERED[i]);
    assert forall i :: 0 <= i < |TRUNCATED| ==> !IsFenceChar(TRUNCATED[i]);
  }

  lemma SafeHasNoFence(text: string, strip: string -> string, patterns: seq<Pattern>, max: nat)
    ensures !Contains(Safe(text, strip, patterns, max), FENCE)
  {
    var cleaned := Filtered(strip(text), patterns);
    var replaced := ReplaceAll(cleaned, FENCE, FILTERED);
    FenceAlphabet();
    forall i: nat ensures !Occurs(Truncated(replaced, max), FENCE, i) {
      ReplacedHasNone(cleaned, FENCE, FILTERED, i);
      if |replaced| > max {
        OccursBehindForeign(replaced[..max], TRUNCATED, FENCE, i);
        if Occurs(replaced[..max], FENCE, i) {
          OccursInPrefix(replaced, max, FENCE, i);
        }
      }
    }
  }

  lemma {:induction false} NothingToReplace(s: string, f: string, r: string)
    requires f != "" && !Contains(s, f)
    ensures ReplaceAll(s, f, r) == s
  {
    if s != "" {
      assert !(f <= s) by {
        assert !Occurs(s, f, 0);
      }
      forall i: nat ensures !Occurs(s[1..], f, i) {
        assert [s[0]] + s[1..] == s;
        OccursShifts(s[0], s[1..], f, i + 1);
      }
      NothingToReplace(s[1..], f, r);
    }
  }

  lemma HarmlessTextIsKept(text: string, strip: string -> string, patterns: seq<Pattern>, max: nat)
    requires !Contains(Filtered(strip(text), patterns), FENCE) && |Filtered(strip(text), patterns)| <= max
    ensures Safe(text, strip, patterns, max) == Filtered(strip(text), patterns)
  {
    NothingToReplace(Filtered(strip(text), patterns), FENCE, FILTERED);
  }

  /** One pass replaces the first occurrence and goes on behind it. */
  lemma {:induction false} ReplaceFirstOccurrence(a: string, b: string, f: string, r: string)
    requires f != "" && forall i: nat :: i < |a| ==> !Occurs(a + f + b, f, i)
    ensures ReplaceAll(a + f + b, f, r) == a + r + ReplaceAll(b, f, r)
    decreases |a|
  {
    var s := a + f + b;
    if a == "" {
      assert s == f + b && s[|f|..] == b;
    } else {
      assert !Occurs(s, f, 0);
      assert s[1..] == a[1..] + f + b;
      forall i: nat | i < |a| - 1 ensures !Occurs(s[1..], f, i) {
        OccursShifts(s[0], s[1..], f, i + 1);
        assert [s[0]] + s[1..] == s;
      }
      ReplaceFirstOccurrence(a[1..], b, f, r);
      var rest := ReplaceAll(b, f, r);
      assert [s[0]] + (a[1..] + r + rest) == a + r + rest;
      assert !(f <= s);
    }
  }

  /** The law of substitution: what does not occur is not replaced. */
  ghost predicate Lawful(patterns: seq<Pattern>) {
    forall p, s :: p in patterns && !p.occurs(s) ==> p.filter(s) == s
  }

  /** A pattern with this source occurs in the text. */
  predicate Occurring(s: string, patterns: seq<Pattern>, name: string) {
    exists i :: 0 <= i < |patterns| && patterns[i].occurs(s) && patterns[i].source == name
  }

  lemma OccurringFirst(s: string, patterns: seq<Pattern>, name: string)
    requires patterns != []
    ensures Occurring(s, patterns, name) <==>
      (patterns[0].occurs(s) && patterns[0].source == name) || Occurring(s, patterns[1..], name)
  {
    if Occurring(s, patterns[1..], name) {
      var i :| 0 <= i < |patterns| - 1 && patterns[1..][i].occurs(s) && patterns[1..][i].source == name;
      assert patterns[i + 1].occurs(s) && patterns[i + 1].source == name;
    }
    assert forall i :: 0 < i < |patterns| ==> patterns[1..][i - 1] == patterns[i];
  }

  /** A pattern is reported if and only if it occurs. */
  lemma {:induction false} FoundMembers(s: string, patterns: seq<Pattern>, name: string)
    ensures name in Found(s, patterns) <==> Occurring(s, patterns, name)
  {
    if patterns != [] {
      FoundMembers(s, patterns[1..], name);
      OccurringFirst(s, patterns, name);
      hide Occurring;
    }
  }

  lemma {:induction false} NothingFiltered(s: string, patterns: seq<Pattern>)
    requires Lawful(patterns) && forall i :: 0 <= i < |patterns| ==> !patterns[i].occurs(s)
    ensures Filtered(s, patterns) == s
  {
    if patterns != [] {
      NothingFiltered(s, patterns[..|patterns| - 1]);
    }
  }

  /** A short text in which nothing is found, the fence included, is passed on unchanged. */
  lemma CleanTextIsKept(text: string, strip: string -> string, patterns: seq<Pattern>, max: nat)
    requires Lawful(patterns) && Found(strip(text), patterns) == []
    requires !Contains(strip(text), FENCE) && |strip(text)| <= max
    ensures Safe(text, strip, patterns, max) == strip(text)
  {
    forall i | 0 <= i < |patterns| ensures !patterns[i].occurs(strip(text)) {
      FoundMembers(strip(text), patterns, patterns[i].source);
    }
    NothingFiltered(strip(text), patterns);
    HarmlessTextIsKept(text, strip, patterns, max);
  }

  /** The fence stands at the start and at the end, and nowhere else. */
  ghost predicate FencedExactly(block: string) {
    && |block| >= 2 * |FENCE|
    && forall i: nat :: Occurs(block, FENCE, i) <==> i == 0 || i == |block| - |FENCE|
  }

  /** The positions of the fence behind the opening bracket of a block. */
  lemma FencesOfBody(tag: string, safe: string, i: nat)
    ensures Occurs(tag + "]" + ("\n" + (safe + "\n" + FENCE)), FENCE, i) <==>
      || Occurs(tag, FENCE, i)
      || (i >= |tag| + 2 && Occurs(safe, FENCE, i - |tag| - 2))
      || (i >= |tag| + |safe| + 3 && Occurs(FENCE, FENCE, i - |tag| - |safe| - 3))
  {
    FenceAlphabet();
    NoRoom("", FENCE);
    hide FENCE, Occurs;
    var tail := safe + "\n" + FENCE;
    OccursAcross(tag, ']', "\n" + tail, FENCE, i);
    if i >= |tag| + 1 {
      assert "" + "\n" + tail == "\n" + tail;
      OccursAcross("", '\n', tail, FENCE, i - |tag| - 1);
    }
    if i >= |tag| + 2 {
      OccursAcross(safe, '\n', FENCE, FENCE, i - |tag| - 2);
    }
  }

  /** The positions of the fence from the start of a block to its opening bracket. */
  lemma FencesOfHead(body: string, i: nat)
    ensures Occurs(FENCE + "\n" + ("[" + body), FENCE, i) <==>
      || Occurs(FENCE, FENCE, i)
      || (i >= |FENCE| + 2 && Occurs(body, FENCE, i - |FENCE| - 2))
  {
    FenceAlphabet();
    NoRoom("", FENCE);
    hide FENCE, Occurs;
    OccursAcross(FENCE, '\n', "[" + body, FENCE, i);
    if i >= |FENCE| + 1 {
      assert "" + "[" + body == "[" + body;
      OccursAcross("", '[', body, FENCE, i - |FENCE| - 1);
    }
  }

  /** The positions of the fence in a wrapped block, whatever the label and the text. */
  lemma FencesOfBlock(tag: string, safe: string, i: nat)
    ensures Occurs(Wrapped(tag, safe), FENCE, i) <==>
      || Occurs(FENCE, FENCE, i)
      || (i >= |FENCE| + 2 && Occurs(tag, FENCE, i - |FENCE| - 2))
      || (i >= |FENCE| + |tag| + 4 && Occurs(safe, FENCE, i - |FENCE| - |tag| - 4))
      || (i >= |FENCE| + |tag| + |safe| + 5 && Occurs(FENCE, FENCE, i - |FENCE| - |tag| - |safe| - 5))
  {
    hide FENCE, Occurs, Wrapped;
    BlockParts(tag, safe);
    FencesOfHead(tag + "]" + ("\n" + (safe + "\n" + FENCE)), i);
    if i >= |FENCE| + 2 {
      FencesOfBody(tag, safe, i - |FENCE| - 2);
    }
  }

  lemma OccurrenceFits(s: string, f: string, i: nat)
    ensures Occurs(s, f, i) ==> i + |f| <= |s|
  {}

  lemma NoRoom(s: string, f: string)
    requires |s| < |f|
    ensures forall i: nat :: !Occurs(s, f, i)
  {}

  lemma BlockParts(tag: string, safe: string)
    ensures Wrapped(tag, safe)
         == FENCE + "\n" + ("[" + (tag + "]" + ("\n" + (safe + "\n" + FENCE))))
  {
    hide FENCE;
    assert "\n[" == "\n" + "[" && "]\n" == "]" + "\n";
  }

  lemma FenceOnlyOnce(i: nat)
    ensures Occurs(FENCE, FENCE, i) <==> i == 0
  {
    hide FENCE;
    assert FENCE[0..|FENCE|] == FENCE;
  }

  /** With a text free of the fence, a block is fenced exactly if and only if its label is
      free of it too: the label is not sanitised. */
  lemma FencedExactlyIff(tag: string, safe: string)
    requires !Contains(safe, FENCE)
    ensures FencedExactly(Wrapped(tag, safe)) <==> !Contains(tag, FENCE)
  {
    var block := Wrapped(tag, safe);
    hide FENCE, Occurs;
    forall i: nat ensures Occurs(block, FENCE, i) <==>
      i == 0 || i == |block| - |FENCE| || (i >= |FENCE| + 2 && Occurs(tag, FENCE, i - |FENCE| - 2))
    {
      FencesOfBlock(tag, safe, i);
      FenceOnlyOnce(i);
      if i >= |FENCE| + |tag| + |safe| + 5 {
        FenceOnlyOnce(i - |FENCE| - |tag| - |safe| - 5);
      }
    }
    FenceChars();
    forall k: nat ensures Occurs(tag, FENCE, k) ==> Occurs(block, FENCE, k + |FENCE| + 2) && k + |FENCE| <= |tag| {
      OccurrenceFits(tag, FENCE, k);
    }
  }

  /** A title that contains the fence forges one. */
  lemma LabelCanForgeFence(safe: string)
    requires !Contains(safe, FENCE)
    ensures !FencedExactly(Wrapped("S1 | example.org | " + FENCE, safe))
  {
    var tag := "S1 | example.org | " + FENCE;
    assert Occurs(tag, FENCE, 19);
    FencedExactlyIff(tag, safe);
  }
}
