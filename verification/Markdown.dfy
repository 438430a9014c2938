/** The report renderer: HTML escaping, telling the lines of a report apart, and the block
    structure of what is rendered. The inline markup of a line is an arbitrary function here.
 */
module Markdown {
  import opened Numerals

  // ---------------------------------------------------------------------------------------
  // Escaping
  // ---------------------------------------------------------------------------------------

  function Replacement(x: char, c: char, entity: string): string {
    if x == c then entity else [x]
  }

  /** A global `replace` of one character. */
  function ReplaceChar(s: string, c: char, entity: string): string {
    if s == "" then "" else Replacement(s[0], c, entity) + ReplaceChar(s[1..], c, entity)
  }

  /** `escapeHtml`: five replacements, one after the other. */
  method EscapeHtml(text: string) returns (html: string)
    ensures html == Escaped(text)
  {
    html := ReplaceChar(text, '&', "&amp;");
    html := ReplaceChar(html, '<', "&lt;");
    html := ReplaceChar(html, '>', "&gt;");
    html := ReplaceChar(html, '"', "&quot;");
    html := ReplaceChar(html, '\'', "&#39;");
    FiveReplacesAreOneMap(text);
  }

  /** What one character becomes. */
  function Entity(c: char): string {
    match c
    case '&' => "&amp;"
    case '<' => "&lt;"
    case '>' => "&gt;"
    case '"' => "&quot;"
    case '\'' => "&#39;"
    case _ => [c]
  }

  /** One simultaneous character map. */
  function Escaped(s: string): string {
    if s == "" then "" else Entity(s[0]) + Escaped(s[1..])
  }

  function FiveReplaces(s: string): string {
    ReplaceChar(ReplaceChar(ReplaceChar(ReplaceChar(ReplaceChar(
      s, '&', "&amp;"), '<', "&lt;"), '>', "&gt;"), '"', "&quot;"), '\'', "&#39;")
  }

  lemma ReplaceFirst(x: char, s: string, c: char, entity: string)
    ensures ReplaceChar([x] + s, c, entity) == Replacement(x, c, entity) + ReplaceChar(s, c, entity)
  {
    hide Replacement;
    assert ([x] + s)[1..] == s;
  }

  lemma Associative(a: string, b: string, c: string)
    ensures (a + b) + c == a + (b + c)
  {}

  lemma {:induction false} ReplaceAppend(a: string, b: string, c: char, entity: string)
    ensures ReplaceChar(a + b, c, entity) == ReplaceChar(a, c, entity) + ReplaceChar(b, c, entity)
    decreases |a|
  {
    if a == "" {
      assert a + b == b;
    } else {
      var x, rest := a[0], a[1..];
      hide ReplaceChar, Replacement;
      assert a == [x] + rest;
      Associative([x], rest, b);
      ReplaceAppend(rest, b, c, entity);
      ReplaceFirst(x, rest, c, entity);
      ReplaceFirst(x, rest + b, c, entity);
      Associative(Replacement(x, c, entity), ReplaceChar(rest, c, entity), ReplaceChar(b, c, entity));
    }
  }

  lemma {:induction false} ReplaceAbsent(s: string, c: char, entity: string)
    requires c !in s
    ensures ReplaceChar(s, c, entity) == s
  {
    if s != "" {
      ReplaceAbsent(s[1..], c, entity);
    }
  }

  lemma ReplaceOne(c: char, entity: string)
    ensures ReplaceChar([c], c, entity) == entity
  {
    assert [c][1..] == "";
  }

  /** No later replacement touches what an earlier one has put in. */
  lemma FiveReplacesOfChar(c: char)
    ensures FiveReplaces([c]) == Entity(c)
  {
    var e := Entity(c);
    hide ReplaceChar;
    match c {
      case '&' =>
        ReplaceOne(c, e);
      case '<' =>
        ReplaceAbsent([c], '&', "&amp;");
        ReplaceOne(c, e);
      case '>' =>
        ReplaceAbsent([c], '&', "&amp;");
        ReplaceAbsent([c], '<', "&lt;");
        ReplaceOne(c, e);
      case '"' =>
        ReplaceAbsent([c], '&', "&amp;");
        ReplaceAbsent([c], '<', "&lt;");
        ReplaceAbsent([c], '>', "&gt;");
        ReplaceOne(c, e);
      case '\'' =>
        ReplaceAbsent([c], '&', "&amp;");
        ReplaceAbsent([c], '<', "&lt;");
        ReplaceAbsent([c], '>', "&gt;");
        ReplaceAbsent([c], '"', "&quot;");
        ReplaceOne(c, e);
      case _ =>
        ReplaceAbsent([c], '&', "&amp;");
    }
    ReplaceAbsent(e, '<', "&lt;");
    ReplaceAbsent(e, '>', "&gt;");
    ReplaceAbsent(e, '"', "&quot;");
    ReplaceAbsent(e, '\'', "&#39;");
  }

  lemma {:induction false} FiveReplacesAreOneMap(s: string)
    ensures FiveReplaces(s) == Escaped(s)
  {
    if s != "" {
      var a, b := [s[0]], s[1..];
      assert s == a + b;
      FiveReplacesOfChar(s[0]);
      FiveReplacesAreOneMap(b);
      hide ReplaceChar;
      ReplaceAppend(a, b, '&', "&amp;");
      var a1, b1 := ReplaceChar(a, '&', "&amp;"), ReplaceChar(b, '&', "&amp;");
      ReplaceAppend(a1, b1, '<', "&lt;");
      var a2, b2 := ReplaceChar(a1, '<', "&lt;"), ReplaceChar(b1, '<', "&lt;");
      ReplaceAppend(a2, b2, '>', "&gt;");
      var a3, b3 := ReplaceChar(a2, '>', "&gt;"), ReplaceChar(b2, '>', "&gt;");
      ReplaceAppend(a3, b3, '"', "&quot;");
      var a4, b4 := ReplaceChar(a3, '"', "&quot;"), ReplaceChar(b3, '"', "&quot;");
      ReplaceAppend(a4, b4, '\'', "&#39;");
    }
  }

  /** Nothing of the source can open a tag or leave an attribute. */
  lemma {:induction false} EscapedIsInert(s: string)
    ensures forall c :: c in Escaped(s) ==> c != '<' && c != '>' && c != '"' && c != '\''
  {
    if s != "" {
      EscapedIsInert(s[1..]);
    }
  }

  /** The character that a text starts with when entities are read, and how long it is written. */
  function FirstRead(h: string): (r: (char, nat))
    requires h != ""
    ensures 1 <= r.1 <= |h|
  {
    if "&amp;" <= h then ('&', 5)
    else if "&lt;" <= h then ('<', 4)
    else if "&gt;" <= h then ('>', 4)
    else if "&quot;" <= h then ('"', 6)
    else if "&#39;" <= h then ('\'', 5)
    else (h[0], 1)
  }

  /** Reading the entities back. */
  function Unescaped(h: string): string {
    if h == "" then "" else [FirstRead(h).0] + Unescaped(h[FirstRead(h).1..])
  }

  lemma NotRead(e: string, h: string, k: nat)
    requires k < |e| && k < |h| && e[k] != h[k]
    ensures !(e <= h)
  {}

  lemma ReadEntity(c: char, tail: string)
    ensures FirstRead(Entity(c) + tail) == (c, |Entity(c)|)
  {
    var h := Entity(c) + tail;
    assert Entity(c) <= h;
    if Entity(c) == [c] {
      assert h[0] == c != '&';
      NotRead("&amp;", h, 0);
      NotRead("&lt;", h, 0);
      NotRead("&gt;", h, 0);
      NotRead("&quot;", h, 0);
      NotRead("&#39;", h, 0);
    } else {
      assert h[1] == Entity(c)[1];
      if c != '&' {
        NotRead("&amp;", h, 1);
      }
      if c != '<' {
        NotRead("&lt;", h, 1);
      }
      if c != '>' {
        NotRead("&gt;", h, 1);
      }
      if c != '"' {
        NotRead("&quot;", h, 1);
      }
    }
  }

  lemma UnescapeOne(c: char, tail: string)
    ensures Unescaped(Entity(c) + tail) == [c] + Unescaped(tail)
  {
    ReadEntity(c, tail);
    assert (Entity(c) + tail)[|Entity(c)|..] == tail;
    hide FirstRead;
  }

  lemma {:induction false} UnescapeInverts(s: string)
    ensures Unescaped(Escaped(s)) == s
  {
    if s != "" {
      UnescapeOne(s[0], Escaped(s[1..]));
      UnescapeInverts(s[1..]);
    }
  }

  /** Different texts never render alike. */
  lemma EscapedIsInjective(s: string, t: string)
    requires Escaped(s) == Escaped(t)
    ensures s == t
  {
    UnescapeInverts(s);
    UnescapeInverts(t);
  }

  // ---------------------------------------------------------------------------------------
  // Lines
  // ---------------------------------------------------------------------------------------

  /** What a line is, with the text that is rendered inline. */
  datatype Line = Blank | Heading(level: nat, text: string) | Bullet(text: string) | Rule | Paragraph(text: string)

  /** What `trimEnd` and the white-space class of the patterns take for a space. */
  predicate IsSpace(c: char) {
    var n := c as int;
    9 <= n <= 13 || n == 32 || n == 0xA0 || n == 0x1680 || 0x2000 <= n <= 0x200A || n == 0x2028 || n == 0x2029
    || n == 0x202F || n == 0x205F || n == 0x3000 || n == 0xFEFF
  }

  /** What the dot of the heading pattern does not match. */
  predicate EndsLine(c: char) {
    c == '\n' || c == '\r' || c as int == 0x2028 || c as int == 0x2029
  }

  predicate AllSpaces(s: string) {
    forall i :: 0 <= i < |s| ==> IsSpace(s[i])
  }

  function TrimEnd(s: string): (t: string)
    ensures t <= s && AllSpaces(s[|t|..])
    ensures t != "" ==> !IsSpace(t[|t| - 1])
  {
    if s == "" || !IsSpace(s[|s| - 1]) then s
    else
      var n := |s| - 1;
      var t := TrimEnd(s[..n]);
      assert s[|t|..] == s[..n][|t|..] + [s[n]];
      t
  }

  /** The number of spaces at the start. */
  function Indent(s: string): (n: nat)
    ensures n <= |s| && AllSpaces(s[..n]) && (n < |s| ==> !IsSpace(s[n]))
  {
    if s == "" || !IsSpace(s[0]) then 0 else 1 + Indent(s[1..])
  }

  /** The number of hash signs at the start. */
  function Hashes(s: string): (n: nat)
    ensures n <= |s| && (forall i :: 0 <= i < n ==> s[i] == '#') && (n < |s| ==> s[n] != '#')
  {
    if s == "" || s[0] != '#' then 0 else 1 + Hashes(s[1..])
  }

  function AfterSpaces(s: string): string {
    s[Indent(s)..]
  }

  predicate IsHeading(line: string) {
    var n := Hashes(line);
    && 1 <= n <= 4 && n < |line| && IsSpace(line[n])
    && forall c :: c in AfterSpaces(line[n..]) ==> !EndsLine(c)
  }

  predicate IsBullet(line: string) {
    |line| >= 2 && (line[0] == '-' || line[0] == '*') && IsSpace(line[1])
  }

  predicate IsRule(line: string) {
    |line| >= 3 && forall i :: 0 <= i < |line| ==> line[i] == '-'
  }

  /** One line of the source, as the patterns of `renderMarkdown` try it one after the other. */
  function Classify(raw: string): Line {
    var line := TrimEnd(raw);
    if line == "" then Blank
    else if IsHeading(line) then Heading(Hashes(line), AfterSpaces(line[Hashes(line)..]))
    else if IsBullet(line) then Bullet(AfterSpaces(line[1..]))
    else if IsRule(line) then Rule
    else Paragraph(line)
  }

  /** The line is so much markup, at least one space, and the text. */
  predicate MarkedUp(line: string, markup: nat, text: string) {
    markup + 1 + |text| <= |line|
    && AllSpaces(line[markup..|line| - |text|]) && line[|line| - |text|..] == text
    && (text != "" ==> !IsSpace(text[0]))
  }

  lemma TrimmedIsEmptyIff(raw: string)
    ensures TrimEnd(raw) == "" <==> AllSpaces(raw)
  {
    var line := TrimEnd(raw);
    if line != "" {
      assert raw[|line| - 1] == line[|line| - 1];
    } else {
      assert raw[0..] == raw;
    }
  }

  /** The heading pattern: one to four hash signs, some spaces, and a text of one line. */
  ghost predicate HeadingAt(line: string, n: nat, m: nat) {
    && 1 <= n <= 4 && n < m <= |line|
    && (forall i :: 0 <= i < n ==> line[i] == '#')
    && AllSpaces(line[n..m])
    && (forall c :: c in line[m..] ==> c != '\n' && c != '\r' && c != '\U{2028}' && c != '\U{2029}')
  }

  lemma HeadingIff(line: string)
    ensures IsHeading(line) <==> exists n: nat, m: nat :: HeadingAt(line, n, m)
  {
    var k := Hashes(line);
    if IsHeading(line) {
      SpacesBefore(line, k);
      var m := |line| - |AfterSpaces(line[k..])|;
      hide IsSpace, Hashes, Indent;
      assert HeadingAt(line, k, m);
    }
    if n: nat, m: nat :| HeadingAt(line, n, m) {
      assert IsSpace(line[n]) by {
        assert line[n..m][0] == line[n];
      }
      assert n == k by {
        assert line[n] != '#';
      }
      HeadingText(line, n, m);
    }
  }

  /** The pattern takes all the spaces there are, so what it leaves is in any other match too. */
  lemma HeadingText(line: string, n: nat, m: nat)
    requires HeadingAt(line, n, m)
    ensures forall c :: c in AfterSpaces(line[n..]) ==> c in line[m..]
  {
    hide IsSpace;
    var k := Indent(line[n..]);
    assert forall i :: 0 <= i < m - n ==> line[n..][i] == line[n..m][i];
    assert line[n..][k..] == line[m..][n + k - m..];
  }

  /** The kinds of line, each by what its text must look like; and of every line nothing is lost
      but its markup and the spaces around its text. */
  lemma ClassifyIff(raw: string)
    ensures var line := TrimEnd(raw);
            && (Classify(raw).Blank? <==> AllSpaces(raw))
            && (Classify(raw).Rule? <==> |line| >= 3 && forall i :: 0 <= i < |line| ==> line[i] == '-')
            && (Classify(raw).Heading? <==> exists n: nat, m: nat :: HeadingAt(line, n, m))
            && (Classify(raw).Bullet? <==> |line| >= 2 && (line[0] == '-' || line[0] == '*') && IsSpace(line[1]))
    ensures var line := TrimEnd(raw);
            match Classify(raw)
            case Heading(level, text) =>
              1 <= level <= 4 && MarkedUp(line, level, text) && forall i :: 0 <= i < level ==> line[i] == '#'
            case Bullet(text) => MarkedUp(line, 1, text) && (line[0] == '-' || line[0] == '*')
            case Paragraph(text) => text == line
            case _ => true
  {
    var line := TrimEnd(raw);
    TrimmedIsEmptyIff(raw);
    HeadingIff(line);
    if IsHeading(line) {
      SpacesBefore(line, Hashes(line));
    } else if IsBullet(line) {
      SpacesBefore(line, 1);
    }
    hide IsSpace, Hashes, Indent, TrimEnd, EndsLine;
  }

  lemma SpacesBefore(line: string, markup: nat)
    requires markup < |line| && IsSpace(line[markup])
    ensures MarkedUp(line, markup, AfterSpaces(line[markup..]))
  {
    hide IsSpace;
    var rest := line[markup..];
    var n := Indent(rest);
    assert rest[0] == line[markup];
    assert n > 0;
    assert line[markup..markup + n] == rest[..n];
    assert line[markup + n..] == rest[n..];
  }

  /** The pieces between line feeds. */
  function Split(s: string): (pieces: seq<string>)
    ensures |pieces| > 0
  {
    if s == "" then [""]
    else
      var rest := Split(s[1..]);
      if s[0] == '\n' then [""] + rest else [[s[0]] + rest[0]] + rest[1..]
  }

  function Join(pieces: seq<string>): string {
    if pieces == [] then ""
    else if |pieces| == 1 then pieces[0]
    else pieces[0] + "\n" + Join(pieces[1..])
  }

  /** Splitting loses nothing and leaves no line feed. */
  lemma {:induction false} SplitJoins(s: string)
    ensures Join(Split(s)) == s
    ensures forall i :: 0 <= i < |Split(s)| ==> '\n' !in Split(s)[i]
  {
    if s != "" {
      var rest := Split(s[1..]);
      SplitJoins(s[1..]);
      if s[0] == '\n' {
        assert Split(s)[1..] == rest;
      } else {
        assert Split(s)[1..] == rest[1..];
        assert Split(s)[0] == [s[0]] + rest[0];
        if |rest| > 1 {
          assert Join(rest) == rest[0] + "\n" + Join(rest[1..]);
        }
      }
    }
  }

  // ---------------------------------------------------------------------------------------
  // Blocks
  // ---------------------------------------------------------------------------------------

  datatype Block =
    | OpenList
    | CloseList
    | Item(html: string)
    | HeadingBlock(level: nat, html: string)
    | RuleBlock
    | ParagraphBlock(html: string)

  /** The tags of a block. */
  function Show(b: Block): string {
    match b
    case OpenList => "<ul>"
    case CloseList => "</ul>"
    case Item(html) => "<li>" + html + "</li>"
    case HeadingBlock(level, html) => "<h" + Decimal(level) + ">" + html + "</h" + Decimal(level) + ">"
    case RuleBlock => "<hr />"
    case ParagraphBlock(html) => "<p>" + html + "</p>"
  }

  function Shown(bs: seq<Block>): (out: seq<string>)
    ensures |out| == |bs|
  {
    seq(|bs|, i requires 0 <= i < |bs| => Show(bs[i]))
  }

  function LinesOf(raw: seq<string>): (lines: seq<Line>)
    ensures |lines| == |raw|
  {
    seq(|raw|, i requires 0 <= i < |raw| => Classify(raw[i]))
  }

  /** `renderMarkdown`. */
  method RenderMarkdown(source: string, inline: string -> string) returns (html: string)
    ensures html == Join(Shown(Rendered(LinesOf(Split(source)), inline)))
  {
    hide Rendered;
    var out := RenderBlocks(Split(source), inline);
    html := Join(Shown(out));
  }

  /** Its loop over the lines. */
  method RenderBlocks(raw: seq<string>, inline: string -> string) returns (out: seq<Block>)
    ensures out == Rendered(LinesOf(raw), inline)
  {
    hide RenderedOpen, Classify;
    ghost var lines := LinesOf(raw);
    out := [];
    var inList := false;
    RenderNothing(inline);
    for i := 0 to |raw|
      invariant inList == InList(lines[..i])
      invariant out == RenderedOpen(lines[..i], inline)
    {
      var line := Classify(raw[i]);
      RenderOneMore(lines, i, inline);
      if inList && !line.Bullet? {
        out := out + [CloseList];
        inList := false;
      }
      match line
      case Blank =>
      case Heading(level, text) => out := out + [HeadingBlock(level, inline(text))];
      case Bullet(text) =>
        if !inList {
          out := out + [OpenList];
          inList := true;
        }
        out := out + [Item(inline(text))];
      case Rule => out := out + [RuleBlock];
      case Paragraph(text) => out := out + [ParagraphBlock(inline(text))];
    }
    assert lines[..|lines|] == lines;
    if inList {
      out := out + [CloseList];
    }
  }

  lemma RenderNothing(inline: string -> string)
    ensures RenderedOpen([], inline) == []
  {}

  lemma RenderOneMore(lines: seq<Line>, i: nat, inline: string -> string)
    requires i < |lines|
    ensures RenderedOpen(lines[..i + 1], inline)
         == RenderedOpen(lines[..i], inline) + Turn(InList(lines[..i]), lines[i].Bullet?) + BlockOf(lines[i], inline)
    ensures InList(lines[..i + 1]) == lines[i].Bullet?
  {
    assert lines[..i + 1][..i] == lines[..i];
  }

  predicate InList(lines: seq<Line>) {
    lines != [] && lines[|lines| - 1].Bullet?
  }

  /** The block of one line, but for the list around it. */
  function BlockOf(l: Line, inline: string -> string): seq<Block> {
    match l
    case Blank => []
    case Heading(level, text) => [HeadingBlock(level, inline(text))]
    case Bullet(text) => [Item(inline(text))]
    case Rule => [RuleBlock]
    case Paragraph(text) => [ParagraphBlock(inline(text))]
  }

  function RenderedOpen(lines: seq<Line>, inline: string -> string): seq<Block> {
    if lines == [] then []
    else
      var n := |lines| - 1;
      RenderedOpen(lines[..n], inline)
      + Turn(InList(lines[..n]), lines[n].Bullet?)
      + BlockOf(lines[n], inline)
  }

  function Rendered(lines: seq<Line>, inline: string -> string): seq<Block> {
    RenderedOpen(lines, inline) + if InList(lines) then [CloseList] else []
  }

  datatype ListStatus = Outside | Inside | Broken

  /** Lists do not nest, items stand in lists, and nothing else does. */
  function NextStatus(status: ListStatus, b: Block): ListStatus {
    match (status, b)
    case (Outside, OpenList) => Inside
    case (Inside, Item(_)) => Inside
    case (Inside, CloseList) => Outside
    case (Outside, HeadingBlock(_, _)) => Outside
    case (Outside, RuleBlock) => Outside
    case (Outside, ParagraphBlock(_)) => Outside
    case _ => Broken
  }

  /** Whether a list is open after the blocks, or they are ill-formed. */
  function ListState(bs: seq<Block>): ListStatus {
    if bs == [] then Outside else NextStatus(ListState(bs[..|bs| - 1]), bs[|bs| - 1])
  }

  /** The blocks without the list tags. */
  function Content(bs: seq<Block>): seq<Block> {
    if bs == [] then [] else Content(bs[..|bs| - 1]) + Untagged(bs[|bs| - 1])
  }

  function Untagged(b: Block): seq<Block> {
    if b.OpenList? || b.CloseList? then [] else [b]
  }

  lemma OneMoreBlock(bs: seq<Block>, more: seq<Block>)
    requires |more| <= 1
    ensures ListState(bs + more) == if more == [] then ListState(bs) else NextStatus(ListState(bs), more[0])
    ensures Content(bs + more) == Content(bs) + if more == [] then [] else Untagged(more[0])
  {
    if more == [] {
      assert bs + more == bs;
    } else {
      assert (bs + more)[..|bs|] == bs;
    }
  }

  /** What is emitted between two lines. */
  function Turn(earlier: bool, now: bool): seq<Block> {
    if earlier && !now then [CloseList] else if !earlier && now then [OpenList] else []
  }

  function LineContent(lines: seq<Line>, inline: string -> string): seq<Block> {
    if lines == [] then [] else LineContent(lines[..|lines| - 1], inline) + BlockOf(lines[|lines| - 1], inline)
  }

  lemma OneMoreLine(bs: seq<Block>, earlier: bool, l: Line, inline: string -> string)
    requires ListState(bs) == if earlier then Inside else Outside
    ensures ListState(bs + Turn(earlier, l.Bullet?) + BlockOf(l, inline)) == if l.Bullet? then Inside else Outside
    ensures Content(bs + Turn(earlier, l.Bullet?) + BlockOf(l, inline)) == Content(bs) + BlockOf(l, inline)
  {
    hide ListState, Content;
    OneMoreBlock(bs, Turn(earlier, l.Bullet?));
    OneMoreBlock(bs + Turn(earlier, l.Bullet?), BlockOf(l, inline));
  }

  lemma {:induction false} OpenBlocks(lines: seq<Line>, inline: string -> string)
    ensures ListState(RenderedOpen(lines, inline)) == if InList(lines) then Inside else Outside
    ensures Content(RenderedOpen(lines, inline)) == LineContent(lines, inline)
  {
    if lines != [] {
      var n := |lines| - 1;
      OpenBlocks(lines[..n], inline);
      OneMoreLine(RenderedOpen(lines[..n], inline), InList(lines[..n]), lines[n], inline);
      hide ListState, Content, Turn, BlockOf;
    }
  }

  /** In every rendered report the list tags match, do not nest and hold the items and
      nothing else, no list stays open, and every line that is not blank is rendered once,
      in order.
   */
  lemma RenderedWellFormed(lines: seq<Line>, inline: string -> string)
    ensures ListState(Rendered(lines, inline)) == Outside
    ensures Content(Rendered(lines, inline)) == LineContent(lines, inline)
  {
    OpenBlocks(lines, inline);
    OneMoreBlock(RenderedOpen(lines, inline), if InList(lines) then [CloseList] else []);
  }

  lemma OneLine(l: Line, inline: string -> string)
    ensures RenderedOpen([l], inline) == Turn(false, l.Bullet?) + BlockOf(l, inline)
    ensures InList([l]) == l.Bullet?
  {
    assert [l][..0] == [] && [l][0] == l;
    assert RenderedOpen([], inline) == [];
  }

  /** What the report of a single line looks like. */
  lemma RenderedLine(l: Line, inline: string -> string)
    requires l.Heading? ==> 1 <= l.level <= 4
    ensures Join(Shown(Rendered([l], inline))) ==
      match l
      case Blank => ""
      case Heading(level, text) =>
        "<h" + ["1", "2", "3", "4"][level - 1] + ">" + inline(text) + "</h" + ["1", "2", "3", "4"][level - 1] + ">"
      case Bullet(text) => "<ul>\n<li>" + inline(text) + "</li>\n</ul>"
      case Rule => "<hr />"
      case Paragraph(text) => "<p>" + inline(text) + "</p>"
  {
    OneLine(l, inline);
    var bs := Rendered([l], inline);
    match l {
      case Bullet(text) =>
        var item := "<li>" + inline(text) + "</li>";
        assert Shown(bs) == ["<ul>", item, "</ul>"];
        assert ["<ul>", item, "</ul>"][1..] == [item, "</ul>"] && [item, "</ul>"][1..] == ["</ul>"];
        assert Join(["</ul>"]) == "</ul>";
        assert Join([item, "</ul>"]) == item + "\n" + "</ul>";
        assert Join(Shown(bs)) == "<ul>" + "\n" + (item + "\n" + "</ul>");
        ListText(item, inline(text));
      case Heading(level, text) =>
        LevelDigit(level);
        assert Shown(bs) == [Show(HeadingBlock(level, inline(text)))];
      case Blank => assert Shown(bs) == [];
      case Rule => assert Shown(bs) == ["<hr />"];
      case Paragraph(text) => assert Shown(bs) == ["<p>" + inline(text) + "</p>"];
    }
  }

  lemma ListText(item: string, html: string)
    requires item == "<li>" + html + "</li>"
    ensures "<ul>" + "\n" + (item + "\n" + "</ul>") == "<ul>\n<li>" + html + "</li>\n</ul>"
  {
    assert "<ul>\n<li>" == "<ul>" + "\n" + "<li>" && "</li>\n</ul>" == "</li>" + "\n" + "</ul>";
  }

  lemma LevelDigit(level: nat)
    requires 1 <= level <= 4
    ensures Decimal(level) == ["1", "2", "3", "4"][level - 1]
  {}

  /** The characters that have an entity, and theirs. */
  lemma EntitiesAre()
    ensures Escaped("&") == "&amp;" && Escaped("<") == "&lt;" && Escaped(">") == "&gt;"
    ensures Escaped("\"") == "&quot;" && Escaped("'") == "&#39;"
    ensures forall c: char :: c !in "&<>\"'" ==> Escaped([c]) == [c]
  {
    assert forall c: char :: [c][1..] == "";
    assert Escaped("") == "";
    assert "&"[0] == '&' && "<"[0] == '<' && ">"[0] == '>' && "\""[0] == '"' && "'"[0] == '\'';
    forall c: char | c !in "&<>\"'" ensures Escaped([c]) == [c] {
      assert "&<>\"'"[0] == '&' && "&<>\"'"[1] == '<' && "&<>\"'"[2] == '>';
      assert "&<>\"'"[3] == '"' && "&<>\"'"[4] == '\'';
    }
  }

  /** White space of the common kinds is white space, and nothing that prints in ASCII is. */
  lemma SpacesAre()
    ensures AllSpaces(" \t\n\U{000B}\U{000C}\r\U{00A0}\U{1680}\U{2000}\U{200A}\U{2028}\U{2029}")
    ensures AllSpaces("\U{202F}\U{205F}\U{3000}\U{FEFF}")
    ensures forall c: char :: '!' <= c <= '~' ==> !IsSpace(c)
  {}
}
