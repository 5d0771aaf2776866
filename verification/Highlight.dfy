/**
 The two HTML highlighters: both escape the text, then wrap pieces of it in coloured spans.
 The regular expressions are written out as the searches they perform.
 */
module Highlight {
  import opened Options
  import opened Strings
  import opened Chars

  // ----- Escaping -------------------------------------------------------------------

  function Replace(s: string, c: char, entity: string): string {
    if s == "" then "" else (if s[0] == c then entity else [s[0]]) + Replace(s[1..], c, entity)
  }

  /** The three replacements in the order the page makes them. */
  function EscapeHtml(s: string): string {
    Replace(Replace(Replace(s, '&', "&amp;"), '<', "&lt;"), '>', "&gt;")
  }

  function Entity(c: char): string {
    if c == '&' then "&amp;" else if c == '<' then "&lt;" else if c == '>' then "&gt;" else [c]
  }

  function EscapeEach(s: string): string {
    if s == "" then "" else Entity(s[0]) + EscapeEach(s[1..])
  }

  function Unescape(s: string): string {
    if s == "" then ""
    else if "&amp;" <= s then "&" + Unescape(s[5..])
    else if "&lt;" <= s then "<" + Unescape(s[4..])
    else if "&gt;" <= s then ">" + Unescape(s[4..])
    else [s[0]] + Unescape(s[1..])
  }

  lemma {:induction false} ReplaceConcat(a: string, b: string, c: char, entity: string)
    ensures Replace(a + b, c, entity) == Replace(a, c, entity) + Replace(b, c, entity)
    decreases |a|
  {
    if a == "" {
      assert a + b == b;
    } else {
      assert (a + b)[1..] == a[1..] + b;
      ReplaceConcat(a[1..], b, c, entity);
    }
  }

  lemma {:induction false} ReplaceAbsent(s: string, c: char, entity: string)
    requires c !in s
    ensures Replace(s, c, entity) == s
    decreases |s|
  {
    if s != "" {
      assert forall x :: x in s[1..] ==> x in s;
      ReplaceAbsent(s[1..], c, entity);
    }
  }

  lemma ReplaceOne(c: char, d: char, entity: string)
    ensures Replace([c], d, entity) == if c == d then entity else [c]
  {
    assert [c][1..] == "";
  }

  lemma EscapeConcat(a: string, b: string)
    ensures EscapeHtml(a + b) == EscapeHtml(a) + EscapeHtml(b)
  {
    var a1, b1 := Replace(a, '&', "&amp;"), Replace(b, '&', "&amp;");
    ReplaceConcat(a, b, '&', "&amp;");
    ReplaceConcat(a1, b1, '<', "&lt;");
    ReplaceConcat(Replace(a1, '<', "&lt;"), Replace(b1, '<', "&lt;"), '>', "&gt;");
  }

  lemma {:induction false} EscapeAmpersand()
    ensures EscapeHtml(['&']) == "&amp;"
  {
    ReplaceOne('&', '&', "&amp;");
    EntityKept("&amp;");
  }

  lemma {:induction false} EntityKept(entity: string)
    requires '<' !in entity && '>' !in entity
    ensures Replace(Replace(entity, '<', "&lt;"), '>', "&gt;") == entity
  {
    ReplaceAbsent(entity, '<', "&lt;");
    ReplaceAbsent(entity, '>', "&gt;");
  }

  lemma EscapeLess()
    ensures EscapeHtml(['<']) == "&lt;"
  {
    ReplaceOne('<', '&', "&amp;");
    ReplaceOne('<', '<', "&lt;");
    ReplaceAbsent("&lt;", '>', "&gt;");
  }

  lemma EscapeOther(c: char)
    requires c != '&' && c != '<'
    ensures EscapeHtml([c]) == Entity(c)
  {
    ReplaceOne(c, '&', "&amp;");
    ReplaceOne(c, '<', "&lt;");
    ReplaceOne(c, '>', "&gt;");
  }

  lemma EscapeOne(c: char)
    ensures EscapeHtml([c]) == Entity(c)
  {
    if c == '&' {
      EscapeAmpersand();
    } else if c == '<' {
      EscapeLess();
    } else {
      EscapeOther(c);
    }
  }

  /** The three passes amount to one per-character map: no pass touches what an earlier
      one inserted. */
  lemma {:induction false} EscapeIsPerCharacter(s: string)
    ensures EscapeHtml(s) == EscapeEach(s)
    decreases |s|
  {
    if s != "" {
      assert s == [s[0]] + s[1..];
      EscapeConcat([s[0]], s[1..]);
      EscapeOne(s[0]);
      EscapeIsPerCharacter(s[1..]);
    }
  }

  lemma UnescapeEntity(c: char, rest: string)
    ensures Unescape(Entity(c) + rest) == [c] + Unescape(rest)
  {
    var s := Entity(c) + rest;
    assert s[0] == Entity(c)[0];
    if c == '&' {
      assert s[5..] == rest;
    } else if c == '<' {
      assert s[1] == 'l' && s[4..] == rest;
    } else if c == '>' {
      assert s[1] == 'g' && s[4..] == rest;
    } else {
      assert s[1..] == rest;
    }
  }

  lemma {:induction false} UnescapeEscape(s: string)
    ensures Unescape(EscapeHtml(s)) == s
    decreases |s|
  {
    EscapeIsPerCharacter(s);
    if s != "" {
      EscapeIsPerCharacter(s[1..]);
      UnescapeEscape(s[1..]);
      UnescapeEntity(s[0], EscapeEach(s[1..]));
    }
  }

  predicate NoAngles(s: string) {
    '<' !in s && '>' !in s
  }

  lemma {:induction false} EscapeHasNoAngles(s: string)
    ensures NoAngles(EscapeHtml(s))
    decreases |s|
  {
    EscapeIsPerCharacter(s);
    if s != "" {
      EscapeIsPerCharacter(s[1..]);
      EscapeHasNoAngles(s[1..]);
      assert NoAngles(Entity(s[0]));
    }
  }

  // ----- What a browser makes of the result ------------------------------------------------

  /** The text outside tags. */
  function Strip(html: string): string
    decreases |html|
  {
    if html == "" then ""
    else if html[0] != '<' then [html[0]] + Strip(html[1..])
    else
      var e := IndexOf(html, '>', 0);
      if e == |html| then "" else Strip(html[e + 1..])
  }

  /** The tags, in order. */
  function Tags(html: string): seq<string>
    decreases |html|
  {
    if html == "" then []
    else if html[0] != '<' then Tags(html[1..])
    else
      var e := IndexOf(html, '>', 0);
      if e == |html| then [html] else [html[..e + 1]] + Tags(html[e + 1..])
  }

  datatype Colour = Blue400 | Cyan400 | Gray300 | Gray400 | Gray500 | Green400 | Purple400 | Yellow400

  function Name(colour: Colour): string {
    match colour
    case Blue400 => "blue-400"
    case Cyan400 => "cyan-400"
    case Gray300 => "gray-300"
    case Gray400 => "gray-400"
    case Gray500 => "gray-500"
    case Green400 => "green-400"
    case Purple400 => "purple-400"
    case Yellow400 => "yellow-400"
  }

  function Tag(inner: string): string {
    "<" + inner + ">"
  }

  function OpenName(colour: Colour): string {
    "span class=\"text-" + Name(colour) + "\""
  }

  const CLOSE_NAME := "/span"

  /** One of the tags the highlighters insert. */
  predicate OwnTag(tag: string) {
    tag == Tag(CLOSE_NAME) || exists colour :: tag == Tag(OpenName(colour))
  }

  ghost predicate OwnTags(html: string) {
    forall tag :: tag in Tags(html) ==> OwnTag(tag)
  }

  // ----- Pieces of highlighted text ------------------------------------------------------------

  /** A piece of the text, bare or in a span of its colour. */
  datatype Piece = Bare(text: string) | Coloured(colour: Colour, text: string)

  function RenderPiece(p: Piece): string {
    match p
    case Bare(text) => text
    case Coloured(colour, text) => Tag(OpenName(colour)) + (text + Tag(CLOSE_NAME))
  }

  function Render(ps: seq<Piece>): string {
    if ps == [] then "" else RenderPiece(ps[0]) + Render(ps[1..])
  }

  function TextOf(ps: seq<Piece>): string {
    if ps == [] then "" else ps[0].text + TextOf(ps[1..])
  }

  lemma TextOfCons(p: Piece, ps: seq<Piece>)
    ensures TextOf([p] + ps) == p.text + TextOf(ps)
  {
    assert ([p] + ps)[1..] == ps;
  }

  lemma {:induction false} TextThenRest(text: string, rest: string)
    requires NoAngles(text)
    ensures Strip(text + rest) == text + Strip(rest) && Tags(text + rest) == Tags(rest)
    decreases |text|
  {
    if text == "" {
      assert text + rest == rest;
    } else {
      assert (text + rest)[1..] == text[1..] + rest;
      assert forall c :: c in text[1..] ==> c in text;
      TextThenRest(text[1..], rest);
    }
  }

  lemma Assoc(a: string, b: string, c: string)
    ensures (a + b) + c == a + (b + c)
  {}

  lemma TagThenRest(inner: string, rest: string)
    requires '>' !in inner
    ensures Strip(Tag(inner) + rest) == Strip(rest) && Tags(Tag(inner) + rest) == [Tag(inner)] + Tags(rest)
  {
    var html := Tag(inner) + rest;
    assert html == ("<" + inner) + ['>'] + rest;
    IndexOfFirst("<" + inner, '>', rest);
    assert html[|Tag(inner)|..] == rest;
    assert html[..|Tag(inner)|] == Tag(inner);
  }

  lemma SpanThenRest(open: string, text: string, close: string, rest: string)
    requires '>' !in open && '>' !in close && NoAngles(text)
    ensures var html := (Tag(open) + (text + Tag(close))) + rest;
            Strip(html) == text + Strip(rest) && Tags(html) == [Tag(open)] + ([Tag(close)] + Tags(rest))
  {
    Assoc(Tag(open), text + Tag(close), rest);
    Assoc(text, Tag(close), rest);
    TagThenRest(close, rest);
    TextThenRest(text, Tag(close) + rest);
    TagThenRest(open, text + (Tag(close) + rest));
  }

  lemma PieceThenRest(p: Piece, rest: string)
    requires NoAngles(p.text)
    ensures Strip(RenderPiece(p) + rest) == p.text + Strip(rest)
    ensures OwnTags(rest) ==> OwnTags(RenderPiece(p) + rest)
  {
    match p
    case Bare(text) => TextThenRest(text, rest);
    case Coloured(colour, text) =>
      assert '>' !in "span class=\"text-" && '>' !in "\"" && '>' !in Name(colour);
      assert '>' !in OpenName(colour) && '>' !in CLOSE_NAME;
      SpanThenRest(OpenName(colour), text, CLOSE_NAME, rest);
      assert OwnTag(Tag(OpenName(colour)));
  }

  /** Rendered pieces show as their text, whatever follows, and bring only the highlighter's tags. */
  lemma {:induction false} RenderThenRest(ps: seq<Piece>, rest: string)
    requires NoAngles(TextOf(ps))
    ensures Strip(Render(ps) + rest) == TextOf(ps) + Strip(rest)
    ensures OwnTags(rest) ==> OwnTags(Render(ps) + rest)
    decreases |ps|
  {
    if ps == [] {
      assert Render(ps) + rest == rest;
    } else {
      var p, others := ps[0], ps[1..];
      NoAnglesParts(p.text, TextOf(others));
      RenderThenRest(others, rest);
      PieceThenRest(p, Render(others) + rest);
      Assoc(RenderPiece(p), Render(others), rest);
      Assoc(p.text, TextOf(others), Strip(rest));
    }
  }

  lemma NoAnglesParts(a: string, b: string)
    requires NoAngles(a + b)
    ensures NoAngles(a) && NoAngles(b)
  {
    assert forall c :: c in a ==> c in a + b;
    assert forall c :: c in b ==> c in a + b;
  }

  // ----- Go stack traces ---------------------------------------------------------------------

  /** The last dot before `k`, or `k`. */
  function LastDot(s: string, k: nat): (j: nat)
    requires k <= |s|
    ensures j <= k
  {
    if k == 0 then 0 else if s[k - 1] == '.' then k - 1 else var j := LastDot(s, k - 1); if j == k - 1 then k else j
  }

  /** A dotted name of path characters from the start: where its last part and it end. */
  function DottedName(s: string): Option<(nat, nat)> {
    var k := RunEnd(s, 0, IsPath);
    var j := LastDot(s, k);
    if 1 <= j && j + 1 < k && RunEnd(s, j + 1, IsWord) == k then Some((j, k)) else None
  }

  function Three(a: Piece, b: Piece, c: Piece): seq<Piece> {
    [a] + ([b] + [c])
  }

  function CallLine(line: string, j: nat, k: nat): seq<Piece>
    requires j < k < |line|
  {
    if |line| - 1 > k && line[|line| - 1] == ')' && OneLine(line[k..]) then
      Three(Coloured(Gray400, line[..j + 1]), Coloured(Yellow400, line[j + 1..k]), Coloured(Gray500, line[k..]))
    else [Bare(line)]
  }

  /** An optional `+0x` offset up to the end. */
  predicate OffsetOrEnd(s: string) {
    s == "" ||
    var w := RunEnd(s, 0, IsSpace);
    w >= 1 && w + 3 < |s| && s[w..w + 3] == "+0x" && RunEnd(s, w + 3, IsHex) == |s|
  }

  predicate NotSpaceOrColon(c: char) {
    !IsSpace(c) && c != ':'
  }

  function FileLine(line: string): seq<Piece>
    requires line != "" && line[0] == '\t'
  {
    var a := RunEnd(line, 1, NotSpaceOrColon);
    if a == 1 || a == |line| || line[a] != ':' then [Bare(line)]
    else
      var b := RunEnd(line, a + 1, IsDigit);
      if b == a + 1 || !OffsetOrEnd(line[b..]) then [Bare(line)]
      else FilePieces(line, a, b)
  }

  function FilePieces(line: string, a: nat, b: nat): seq<Piece>
    requires 1 <= a < b <= |line|
  {
    [Bare(line[..1])] + ([Coloured(Cyan400, line[1..a])] +
      Three(Bare(":"), Coloured(Blue400, line[a + 1..b]), Coloured(Gray500, line[b..])))
  }

  const CREATED := "created by "

  /** An optional ` in goroutine N` up to the end. */
  predicate GoroutineOrEnd(s: string) {
    s == "" || (" in goroutine " <= s && |s| > 14 && RunEnd(s, 14, IsDigit) == |s|)
  }

  function CreatedLine(line: string): seq<Piece>
    requires CREATED <= line
  {
    var r := line[|CREATED|..];
    match DottedName(r)
    case None => [Bare(line)]
    case Some((j, k)) =>
      if j < k <= |r| && GoroutineOrEnd(r[k..]) then CreatedPieces(r, j, k) else [Bare(line)]
  }

  function CreatedPieces(r: string, j: nat, k: nat): seq<Piece>
    requires j < k <= |r|
  {
    [Coloured(Purple400, CREATED)] +
      Three(Coloured(Gray400, r[..j + 1]), Coloured(Yellow400, r[j + 1..k]), Coloured(Gray500, r[k..]))
  }

  function LinePieces(line: string): seq<Piece> {
    var name := DottedName(line);
    if name.Some? && name.value.0 < name.value.1 < |line| && line[name.value.1] == '(' then
      CallLine(line, name.value.0, name.value.1)
    else if line != "" && line[0] == '\t' then FileLine(line)
    else if CREATED <= line then CreatedLine(line)
    else [Coloured(Gray300, line)]
  }

  function HighlightLines(lines: seq<string>): seq<string> {
    seq(|lines|, k requires 0 <= k < |lines| => Render(LinePieces(lines[k])))
  }

  function HighlightStackTrace(text: string): string {
    Join(HighlightLines(Split(EscapeHtml(text), '\n')), '\n')
  }

  lemma TextOfOne(p: Piece)
    ensures TextOf([p]) == p.text
  {
    assert [p][1..] == [];
  }

  lemma TextOfThree(a: Piece, b: Piece, c: Piece)
    ensures TextOf(Three(a, b, c)) == a.text + (b.text + c.text)
  {
    TextOfCons(a, [b] + [c]);
    TextOfCons(b, [c]);
    TextOfOne(c);
  }

  lemma {:induction false} TextOfConcat(a: seq<Piece>, b: seq<Piece>)
    ensures TextOf(a + b) == TextOf(a) + TextOf(b)
    decreases |a|
  {
    if a == [] {
      assert a + b == b;
    } else {
      assert (a + b)[1..] == a[1..] + b;
      TextOfConcat(a[1..], b);
    }
  }

  lemma Rejoin(s: string, a: nat, b: nat)
    requires a <= b <= |s|
    ensures s[..a] + (s[a..b] + s[b..]) == s
  {}

  lemma CallLineText(line: string, j: nat, k: nat)
    requires j < k < |line|
    ensures TextOf(CallLine(line, j, k)) == line
  {
    TextOfOne(Bare(line));
    TextOfThree(Coloured(Gray400, line[..j + 1]), Coloured(Yellow400, line[j + 1..k]), Coloured(Gray500, line[k..]));
    Rejoin(line, j + 1, k);
  }

  lemma FilePiecesText(line: string, a: nat, b: nat)
    requires 1 <= a < b <= |line| && line[a] == ':'
    ensures TextOf(FilePieces(line, a, b)) == line
  {
    var colon, n, o := Bare(":"), Coloured(Blue400, line[a + 1..b]), Coloured(Gray500, line[b..]);
    var p := Coloured(Cyan400, line[1..a]);
    TextOfThree(colon, n, o);
    TextOfCons(p, Three(colon, n, o));
    TextOfCons(Bare(line[..1]), [p] + Three(colon, n, o));
    assert line[a + 1..b] + line[b..] == line[a + 1..];
    assert ":" + line[a + 1..] == line[a..];
    Rejoin(line, 1, a);
  }

  lemma FileLineText(line: string)
    requires line != "" && line[0] == '\t'
    ensures TextOf(FileLine(line)) == line
  {
    TextOfOne(Bare(line));
    var a := RunEnd(line, 1, NotSpaceOrColon);
    if a < |line| && line[a] == ':' {
      FilePiecesText(line, a, RunEnd(line, a + 1, IsDigit));
    }
  }

  lemma CreatedPiecesText(r: string, j: nat, k: nat)
    requires j < k <= |r|
    ensures TextOf(CreatedPieces(r, j, k)) == CREATED + r
  {
    var a, b, c := Coloured(Gray400, r[..j + 1]), Coloured(Yellow400, r[j + 1..k]), Coloured(Gray500, r[k..]);
    TextOfThree(a, b, c);
    TextOfCons(Coloured(Purple400, CREATED), Three(a, b, c));
    Rejoin(r, j + 1, k);
  }

  lemma CreatedLineText(line: string)
    requires CREATED <= line
    ensures TextOf(CreatedLine(line)) == line
  {
    TextOfOne(Bare(line));
    var r := line[|CREATED|..];
    match DottedName(r)
    case None =>
    case Some((j, k)) =>
      if j < k <= |r| {
        CreatedPiecesText(r, j, k);
      }
  }

  /** Whichever pattern a line matches, its pieces add up to the line. */
  lemma LinePiecesText(line: string)
    ensures TextOf(LinePieces(line)) == line
  {
    var name := DottedName(line);
    if name.Some? && name.value.0 < name.value.1 < |line| && line[name.value.1] == '(' {
      CallLineText(line, name.value.0, name.value.1);
    } else if line != "" && line[0] == '\t' {
      FileLineText(line);
    } else if CREATED <= line {
      CreatedLineText(line);
    } else {
      TextOfOne(Coloured(Gray300, line));
    }
  }

  lemma LineThenRest(line: string, rest: string)
    requires NoAngles(line)
    ensures Strip(Render(LinePieces(line)) + rest) == line + Strip(rest)
    ensures OwnTags(rest) ==> OwnTags(Render(LinePieces(line)) + rest)
  {
    LinePiecesText(line);
    RenderThenRest(LinePieces(line), rest);
  }

  lemma HighlightLinesCons(lines: seq<string>)
    requires |lines| >= 2
    ensures Join(HighlightLines(lines), '\n') ==
            Render(LinePieces(lines[0])) + ("\n" + Join(HighlightLines(lines[1..]), '\n'))
  {
    assert HighlightLines(lines) == [Render(LinePieces(lines[0]))] + HighlightLines(lines[1..]);
    JoinCons(Render(LinePieces(lines[0])), HighlightLines(lines[1..]), '\n');
    Assoc(Render(LinePieces(lines[0])), "\n", Join(HighlightLines(lines[1..]), '\n'));
  }

  lemma {:induction false} LinesShow(lines: seq<string>)
    requires |lines| >= 1 && NoAngles(Join(lines, '\n'))
    ensures Strip(Join(HighlightLines(lines), '\n')) == Join(lines, '\n')
    ensures OwnTags(Join(HighlightLines(lines), '\n'))
    decreases |lines|
  {
    var first, rest := lines[0], lines[1..];
    if rest == [] {
      assert Join(lines, '\n') == first;
      LineThenRest(first, "");
      assert first + "" == first;
      assert Render(LinePieces(first)) + "" == Render(LinePieces(first));
    } else {
      assert Join(lines, '\n') == first + ("\n" + Join(rest, '\n'));
      NoAnglesParts(first, "\n" + Join(rest, '\n'));
      NoAnglesParts("\n", Join(rest, '\n'));
      LinesShow(rest);
      HighlightLinesCons(lines);
      TextThenRest("\n", Join(HighlightLines(rest), '\n'));
      LineThenRest(first, "\n" + Join(HighlightLines(rest), '\n'));
    }
  }

  /** For every text the highlighted stack trace shows exactly that text, and its only tags
      are the highlighter's own spans. */
  lemma StackTracePreserved(text: string)
    ensures Unescape(Strip(HighlightStackTrace(text))) == text
    ensures OwnTags(HighlightStackTrace(text))
  {
    var escaped := EscapeHtml(text);
    EscapeHasNoAngles(text);
    JoinSplit(escaped, '\n');
    LinesShow(Split(escaped, '\n'));
    UnescapeEscape(text);
  }

  // ----- What the lines of a trace look like -------------------------------------------------------

  /** A coloured piece is a span of its colour's class. */
  lemma {:induction false} SpansAreLiteral(colour: Colour, text: string)
    ensures RenderPiece(Bare(text)) == text
    ensures RenderPiece(Coloured(colour, text)) == "<span class=\"text-" + Name(colour) + "\">" + text + "</span>"
    ensures Name(Blue400) == "blue-400" && Name(Cyan400) == "cyan-400" && Name(Gray300) == "gray-300"
    ensures Name(Gray400) == "gray-400" && Name(Gray500) == "gray-500" && Name(Green400) == "green-400"
    ensures Name(Purple400) == "purple-400" && Name(Yellow400) == "yellow-400"
  {
    assert "<" + OpenName(colour) == "<span class=\"text-" + Name(colour) + "\"";
    assert Tag(CLOSE_NAME) == "</span>";
  }

  /** The characters of `s` from `a` up to `b`, at least one, are of the class. */
  predicate Within(s: string, a: int, b: int, class_: char -> bool) {
    0 <= a < b <= |s| && forall k :: a <= k < b ==> class_(s[k])
  }

  lemma {:induction false} LastDotIs(s: string, j: nat, k: nat)
    requires j < k <= |s| && s[j] == '.' && forall i :: j < i < k ==> s[i] != '.'
    ensures LastDot(s, k) == j
  {
    if j < k - 1 {
      LastDotIs(s, j, k - 1);
    }
  }

  /** A package, a dot at `j` and a name up to `k`. */
  predicate Named(s: string, j: nat, k: nat) {
    && Within(s, 0, j, IsPath) && j < |s| && s[j] == '.' && Within(s, j + 1, k, IsWord)
    && (k < |s| ==> !IsPath(s[k]))
  }

  lemma {:induction false} NameFound(s: string, j: nat, k: nat)
    requires Named(s, j, k)
    ensures DottedName(s) == Some((j, k))
  {
    RunEndAt(s, 0, IsPath, k);
    RunEndAt(s, j + 1, IsWord, k);
    LastDotIs(s, j, k);
  }

  /** A line that calls a function: its package with the dot, its name and its arguments. */
  lemma {:induction false} CallColoured(line: string, j: nat, k: nat)
    requires Named(line, j, k) && k + 1 < |line| && line[k] == '(' && line[|line| - 1] == ')' && OneLine(line[k..])
    ensures LinePieces(line) ==
            [Coloured(Gray400, line[..j + 1])] + ([Coloured(Yellow400, line[j + 1..k])] + [Coloured(Gray500, line[k..])])
  {
    NameFound(line, j, k);
  }

  /** A line with a file: its path, its line number and the offset, if any. */
  lemma {:induction false} FileColoured(line: string, a: nat, b: nat)
    requires line != "" && line[0] == '\t' && Within(line, 1, a, NotSpaceOrColon)
    requires a < |line| && line[a] == ':' && Within(line, a + 1, b, IsDigit)
    requires OffsetOrEnd(line[b..]) && (b < |line| ==> !IsDigit(line[b]))
    ensures LinePieces(line) ==
            [Bare(line[..1])] + ([Coloured(Cyan400, line[1..a])] +
              ([Bare(":")] + ([Coloured(Blue400, line[a + 1..b])] + [Coloured(Gray500, line[b..])])))
  {
    RunEndAt(line, 1, NotSpaceOrColon, a);
    RunEndAt(line, a + 1, IsDigit, b);
    assert DottedName(line) == None;
  }

  lemma {:induction false} CreatedStartsNoCall(line: string)
    requires CREATED <= line
    ensures var name := DottedName(line);
            name.Some? && name.value.0 < name.value.1 < |line| ==> line[name.value.1] != '('
  {
    assert line[7] == CREATED[7];
    assert forall k :: 0 <= k < 7 ==> line[k] == CREATED[k];
    RunEndAt(line, 0, IsPath, 7);
  }

  lemma {:induction false} CreatedLineFound(line: string, r: string, j: nat, k: nat)
    requires CREATED <= line && r == line[|CREATED|..] && Named(r, j, k) && GoroutineOrEnd(r[k..])
    ensures CreatedLine(line) == CreatedPieces(r, j, k)
  {
    NameFound(r, j, k);
  }

  /** A line that says who created the goroutine. */
  lemma {:induction false} CreatedColoured(line: string, r: string, j: nat, k: nat)
    requires CREATED <= line && r == line[|CREATED|..] && Named(r, j, k) && GoroutineOrEnd(r[k..])
    ensures LinePieces(line) ==
            [Coloured(Purple400, "created by ")] +
              ([Coloured(Gray400, r[..j + 1])] + ([Coloured(Yellow400, r[j + 1..k])] + [Coloured(Gray500, r[k..])]))
  {
    CreatedStartsNoCall(line);
    CreatedLineFound(line, r, j, k);
    assert line[0] == CREATED[0];
  }

  /** A line of no such form is in one colour. */
  lemma {:induction false} OtherColoured(line: string)
    requires !(CREATED <= line) && (line != "" ==> line[0] != '\t') && '(' !in line
    ensures LinePieces(line) == [Coloured(Gray300, line)]
  {}

  // ----- JSON ------------------------------------------------------------------------------------

  /** After the opening quote, the end of the string literal's body: the first position where
      none of the body's three alternatives applies. */
  function BodyEnd(s: string, i: nat): (e: nat)
    requires i <= |s|
    ensures i <= e <= |s|
    decreases |s| - i
  {
    if i == |s| || s[i] == '"' then i
    else if s[i] != '\\' then BodyEnd(s, i + 1)
    else if i + 1 == |s| then i
    else if s[i + 1] != 'u' then BodyEnd(s, i + 2)
    else if i + 6 <= |s| && (forall k :: i + 2 <= k < i + 6 ==> IsLetter(s[k]) || IsDigit(s[k])) then BodyEnd(s, i + 6)
    else i
  }

  /** Past white space and a colon, if a colon comes after white space; else where it started. */
  function ColonEnd(s: string, j: nat): (e: nat)
    requires j <= |s|
    ensures j <= e <= |s|
  {
    var w := RunEnd(s, j, IsSpace);
    if w < |s| && s[w] == ':' then w + 1 else j
  }

  /** The end of a quoted string at `i`, with the colon that may follow it; `i` if there is none. */
  function StringEnd(s: string, i: nat): (e: nat)
    requires i < |s| && s[i] == '"'
    ensures i <= e <= |s|
  {
    var q := BodyEnd(s, i + 1);
    if q == |s| || s[q] != '"' then i else ColonEnd(s, q + 1)
  }

  function WordAt(s: string, i: nat, word: string): bool
    requires i <= |s|
  {
    && word <= s[i..]
    && (i == 0 || !IsWord(s[i - 1]))
    && (i + |word| == |s| || !IsWord(s[i + |word|]))
  }

  function FractionEnd(s: string, b: nat): (e: nat)
    requires b <= |s|
    ensures b <= e <= |s|
  {
    if b < |s| && s[b] == '.' then RunEnd(s, b + 1, IsDigit) else b
  }

  function ExponentEnd(s: string, c: nat): (e: nat)
    requires c <= |s|
    ensures c <= e <= |s|
  {
    if c < |s| && (s[c] == 'e' || s[c] == 'E') then
      var d := if c + 1 < |s| && (s[c + 1] == '+' || s[c + 1] == '-') then c + 2 else c + 1;
      var e := RunEnd(s, d, IsDigit);
      if e > d then e else c
    else c
  }

  function NumberEnd(s: string, i: nat): (e: nat)
    requires i < |s|
    ensures i <= e <= |s|
  {
    var a := if s[i] == '-' then i + 1 else i;
    var b := RunEnd(s, a, IsDigit);
    if b == a then i else ExponentEnd(s, FractionEnd(s, b))
  }

  /** The end of the match at `i`, or `i` if nothing matches there. */
  function MatchEnd(s: string, i: nat): (e: nat)
    requires i < |s|
    ensures i <= e <= |s|
  {
    if s[i] == '"' then StringEnd(s, i)
    else if WordAt(s, i, "true") || WordAt(s, i, "null") then i + 4
    else if WordAt(s, i, "false") then i + 5
    else NumberEnd(s, i)
  }

  function Contains(s: string, word: string): bool {
    s != "" && (word <= s || Contains(s[1..], word))
  }

  function Wrap(m: string): seq<Piece>
    requires m != ""
  {
    if m[0] == '"' then
      if m[|m| - 1] == ':' then [Coloured(Cyan400, m[..|m| - 1])] + [Coloured(Gray300, ":")]
      else [Coloured(Green400, m)]
    else if Contains(m, "true") || Contains(m, "false") then [Coloured(Yellow400, m)]
    else if Contains(m, "null") then [Coloured(Purple400, m)]
    else [Coloured(Blue400, m)]
  }

  /** Where the match at each position ends. */
  function MatchEnds(s: string): (ends: seq<nat>)
    ensures Ends(s, ends)
  {
    seq(|s|, i requires 0 <= i < |s| => MatchEnd(s, i))
  }

  predicate Ends(s: string, ends: seq<nat>) {
    |ends| == |s| && forall i :: 0 <= i < |s| ==> i <= ends[i] <= |s|
  }

  /** A character outside every match, or a whole match. */
  datatype Token = Gap(text: string) | Match(text: string)

  function Tokens(s: string, ends: seq<nat>, i: nat): seq<Token>
    requires i <= |s| && Ends(s, ends)
    decreases |s| - i
  {
    if i == |s| then []
    else if ends[i] == i then [Gap(s[i..i + 1])] + Tokens(s, ends, i + 1)
    else [Match(s[i..ends[i]])] + Tokens(s, ends, ends[i])
  }

  function TokenPieces(t: Token): seq<Piece> {
    if t.Gap? || t.text == "" then [Bare(t.text)] else Wrap(t.text)
  }

  function JsonPieces(ts: seq<Token>): seq<Piece> {
    if ts == [] then [] else TokenPieces(ts[0]) + JsonPieces(ts[1..])
  }

  function TokensText(ts: seq<Token>): string {
    if ts == [] then "" else ts[0].text + TokensText(ts[1..])
  }

  function HighlightJson(json: string): string {
    var s := EscapeHtml(json);
    Render(JsonPieces(Tokens(s, MatchEnds(s), 0)))
  }

  lemma WrapText(m: string)
    requires m != ""
    ensures TextOf(Wrap(m)) == m
  {
    var key, colon := Coloured(Cyan400, m[..|m| - 1]), Coloured(Gray300, ":");
    TextOfConcat([key], [colon]);
    TextOfOne(key);
    TextOfOne(colon);
    assert m[|m| - 1] == ':' ==> m[..|m| - 1] + ":" == m;
    TextOfOne(Coloured(Green400, m));
    TextOfOne(Coloured(Yellow400, m));
    TextOfOne(Coloured(Purple400, m));
    TextOfOne(Coloured(Blue400, m));
  }

  /** However the text is cut into matches and gaps, the tokens add up to the text. */
  lemma {:induction false} TokensAddUp(s: string, ends: seq<nat>, i: nat)
    requires i <= |s| && Ends(s, ends)
    ensures TokensText(Tokens(s, ends, i)) == s[i..]
    decreases |s| - i
  {
    if i < |s| {
      var e := if ends[i] == i then i + 1 else ends[i];
      TokensAddUp(s, ends, e);
      assert s[i..e] + s[e..] == s[i..];
    }
  }

  lemma {:induction false} JsonPiecesText(ts: seq<Token>)
    ensures TextOf(JsonPieces(ts)) == TokensText(ts)
    decreases |ts|
  {
    if ts != [] {
      var t := ts[0];
      TextOfConcat(TokenPieces(t), JsonPieces(ts[1..]));
      JsonPiecesText(ts[1..]);
      TokenText(t);
    }
  }

  lemma TokenText(t: Token)
    ensures TextOf(TokenPieces(t)) == t.text
  {
    TextOfOne(Bare(t.text));
    if t.text != "" {
      WrapText(t.text);
    }
  }

  /** For every text the highlighted JSON shows exactly that text, and its only tags are the
      highlighter's own spans. */
  lemma JsonPreserved(json: string)
    ensures Unescape(Strip(HighlightJson(json))) == json
    ensures OwnTags(HighlightJson(json))
  {
    var escaped := EscapeHtml(json);
    var tokens := Tokens(escaped, MatchEnds(escaped), 0);
    var pieces := JsonPieces(tokens);
    EscapeHasNoAngles(json);
    TokensAddUp(escaped, MatchEnds(escaped), 0);
    JsonPiecesText(tokens);
    assert escaped[0..] == escaped;
    RenderThenRest(pieces, "");
    assert Render(pieces) + "" == Render(pieces) && escaped + "" == escaped;
    UnescapeEscape(json);
  }
}
