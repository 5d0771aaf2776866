/**
 The JSON highlighter on the values it is given: the tokens its regular expression finds in a
 serialised value are the value's own lexemes, and each is shown in the colour of its class.
 */
module JsonTokens {
  import opened Options
  import opened Chars
  import opened Highlight

  // ----- Lexemes -----------------------------------------------------------------------

  /** One character of a JSON string literal as the serialiser writes it. */
  datatype Unit = Plain(c: char) | Escaped(c: char) | Unicode(hex: string)

  /** `exponent` is a sign and digits. */
  datatype Numeral = Numeral(negative: bool, whole: string, fraction: Option<string>, exponent: Option<(char, string)>)

  datatype Lexeme = Str(us: seq<Unit>) | Key(us: seq<Unit>) | Word(word: string) | Num(n: Numeral) | Punct(c: char)

  predicate Serialised(u: Unit) {
    match u
    case Plain(c) => c != '"' && c != '\\'
    case Escaped(c) => c != 'u' && Entity(c) == [c]
    case Unicode(hex) => |hex| == 4 && forall k :: 0 <= k < 4 ==> IsHex(hex[k])
  }

  predicate Digits(s: string) {
    s != "" && forall k :: 0 <= k < |s| ==> IsDigit(s[k])
  }

  predicate GoodNumeral(n: Numeral) {
    && Digits(n.whole)
    && (n.fraction.Some? ==> Digits(n.fraction.value))
    && (n.exponent.Some? ==> (n.exponent.value.0 == '+' || n.exponent.value.0 == '-') && Digits(n.exponent.value.1))
  }

  predicate IsPunct(c: char) {
    c == '{' || c == '}' || c == '[' || c == ']' || c == ',' || c == ' ' || c == '\n'
  }

  ghost predicate GoodUnits(us: seq<Unit>) {
    forall k :: 0 <= k < |us| ==> Serialised(us[k])
  }

  ghost predicate Good(l: Lexeme) {
    match l
    case Str(us) => GoodUnits(us)
    case Key(us) => GoodUnits(us)
    case Word(w) => w == "true" || w == "false" || w == "null"
    case Num(n) => GoodNumeral(n)
    case Punct(c) => IsPunct(c)
  }

  function RawUnit(u: Unit): string {
    match u
    case Plain(c) => [c]
    case Escaped(c) => ['\\', c]
    case Unicode(hex) => "\\u" + hex
  }

  function Raw(us: seq<Unit>): string {
    if us == [] then "" else RawUnit(us[0]) + Raw(us[1..])
  }

  /** The unit after the page has escaped it. */
  function WrittenUnit(u: Unit): string {
    match u
    case Plain(c) => Entity(c)
    case Escaped(c) => ['\\', c]
    case Unicode(hex) => "\\u" + hex
  }

  function Written(us: seq<Unit>): string {
    if us == [] then "" else WrittenUnit(us[0]) + Written(us[1..])
  }

  function SignText(n: Numeral): string {
    if n.negative then "-" else ""
  }

  function FractionText(n: Numeral): string {
    if n.fraction.Some? then "." + n.fraction.value else ""
  }

  function ExponentText(n: Numeral): string {
    if n.exponent.Some? then ['e', n.exponent.value.0] + n.exponent.value.1 else ""
  }

  function NumText(n: Numeral): string {
    SignText(n) + (n.whole + (FractionText(n) + ExponentText(n)))
  }

  function Quoted(body: string): string {
    ['"'] + (body + ['"'])
  }

  function RawText(l: Lexeme): string {
    match l
    case Str(us) => Quoted(Raw(us))
    case Key(us) => Quoted(Raw(us)) + ":"
    case Word(w) => w
    case Num(n) => NumText(n)
    case Punct(c) => [c]
  }

  function Text(l: Lexeme): string {
    match l
    case Str(us) => Quoted(Written(us))
    case Key(us) => Quoted(Written(us)) + ":"
    case Word(w) => w
    case Num(n) => NumText(n)
    case Punct(c) => [c]
  }

  function Concat(ts: seq<string>): string {
    if ts == [] then "" else Concat(ts[..|ts| - 1]) + ts[|ts| - 1]
  }

  function RawSpellings(ls: seq<Lexeme>): seq<string> {
    seq(|ls|, k requires 0 <= k < |ls| => RawText(ls[k]))
  }

  function Spellings(ls: seq<Lexeme>): seq<string> {
    seq(|ls|, k requires 0 <= k < |ls| => Text(ls[k]))
  }

  // ----- Texts that stand in other texts -----------------------------------------------------

  /** `w` stands at `i` in `s`. */
  predicate At(s: string, i: nat, w: string) {
    i + |w| <= |s| && s[i..i + |w|] == w
  }

  lemma {:induction false} AtChar(s: string, i: nat, w: string, k: nat)
    requires At(s, i, w) && k < |w|
    ensures s[i + k] == w[k]
  {
    assert s[i..i + |w|][k] == s[i + k];
  }

  lemma {:induction false} AtConcat(s: string, i: nat, a: string, b: string)
    requires At(s, i, a + b)
    ensures At(s, i, a) && At(s, i + |a|, b)
  {
    var m := s[i..i + |a + b|];
    assert s[i..i + |a|] == m[..|a|];
    assert s[i + |a|..i + |a| + |b|] == m[|a|..];
  }

  lemma {:induction false} AtRun(s: string, i: nat, w: string)
    requires At(s, i, w) && Digits(w) && (i + |w| < |s| ==> !IsDigit(s[i + |w|]))
    ensures RunEnd(s, i, IsDigit) == i + |w|
  {
    forall k | i <= k < i + |w|
      ensures IsDigit(s[k])
    {
      AtChar(s, i, w, k - i);
    }
    RunEndAt(s, i, IsDigit, i + |w|);
  }

  // ----- String literals ------------------------------------------------------------------------

  lemma {:induction false} BodyOverPlain(s: string, i: nat, j: nat)
    requires i <= j <= |s| && forall k :: i <= k < j ==> s[k] != '"' && s[k] != '\\'
    ensures BodyEnd(s, i) == BodyEnd(s, j)
    decreases j - i
  {
    if i < j {
      BodyOverPlain(s, i + 1, j);
    }
  }

  lemma {:induction false} BodyOverUnit(s: string, i: nat, u: Unit)
    requires Serialised(u) && At(s, i, WrittenUnit(u))
    ensures BodyEnd(s, i) == BodyEnd(s, i + |WrittenUnit(u)|)
  {
    var w := WrittenUnit(u);
    forall k | i <= k < i + |w|
      ensures s[k] == w[k - i]
    {
      AtChar(s, i, w, k - i);
    }
    match u
    case Plain(c) => BodyOverPlain(s, i, i + |w|);
    case Escaped(c) => assert s[i] == w[0] && s[i + 1] == w[1];
    case Unicode(hex) =>
      assert s[i] == w[0] && s[i + 1] == w[1];
      assert forall k :: 2 <= k < 6 ==> w[k] == hex[k - 2];
  }

  lemma {:induction false} LiteralStep(s: string, i: nat, us: seq<Unit>)
    requires us != [] && GoodUnits(us) && At(s, i, Written(us))
    ensures var j := i + |WrittenUnit(us[0])|;
            && j <= |s| && BodyEnd(s, i) == BodyEnd(s, j) && GoodUnits(us[1..])
            && At(s, j, Written(us[1..])) && j + |Written(us[1..])| == i + |Written(us)|
  {
    assert Serialised(us[0]);
    AtConcat(s, i, WrittenUnit(us[0]), Written(us[1..]));
    BodyOverUnit(s, i, us[0]);
  }

  /** Digits, words and escaped quotes inside a string literal do not end its body: it runs to the
      literal's own closing quote, at `q`. */
  lemma {:induction false} LiteralIsOneMatch(s: string, i: nat, us: seq<Unit>, q: nat)
    requires GoodUnits(us) && At(s, i, Written(us)) && q == i + |Written(us)| < |s| && s[q] == '"'
    ensures BodyEnd(s, i) == q
    decreases |us|
  {
    if us != [] {
      LiteralStep(s, i, us);
      LiteralIsOneMatch(s, i + |WrittenUnit(us[0])|, us[1..], q);
    }
  }

  lemma {:induction false} QuotedBody(s: string, i: nat, us: seq<Unit>)
    requires GoodUnits(us) && At(s, i, Quoted(Written(us)))
    ensures i < |s| && s[i] == '"'
    ensures var q := i + 1 + |Written(us)|; q < |s| && s[q] == '"' && BodyEnd(s, i + 1) == q
  {
    var body := Written(us);
    AtConcat(s, i, ['"'], body + ['"']);
    AtChar(s, i, ['"'], 0);
    AtConcat(s, i + 1, body, ['"']);
    AtChar(s, i + 1 + |body|, ['"'], 0);
    LiteralIsOneMatch(s, i + 1, us, i + 1 + |body|);
  }

  // ----- What is found at the start of each lexeme --------------------------------------------------

  lemma {:induction false} SpaceThenMore(s: string, j: nat)
    requires j < |s|
    ensures s[j] != ':' && !IsSpace(s[j]) ==> ColonEnd(s, j) == j
    ensures IsSpace(s[j]) && ColonEnd(s, j + 1) == j + 1 ==> ColonEnd(s, j) == j
  {}

  lemma {:induction false} StringEndIs(s: string, i: nat, q: nat)
    requires i < q < |s| && s[i] == '"' && BodyEnd(s, i + 1) == q && s[q] == '"'
    ensures MatchEnd(s, i) == ColonEnd(s, q + 1)
  {}

  lemma {:induction false} LiteralFound(s: string, i: nat, us: seq<Unit>)
    requires GoodUnits(us) && At(s, i, Quoted(Written(us)))
    ensures i < |s| && MatchEnd(s, i) == ColonEnd(s, i + |Quoted(Written(us))|)
  {
    QuotedBody(s, i, us);
    StringEndIs(s, i, i + 1 + |Written(us)|);
  }

  lemma {:induction false} KeyFound(s: string, i: nat, us: seq<Unit>)
    requires GoodUnits(us) && At(s, i, Quoted(Written(us)) + ":")
    ensures i < |s| && MatchEnd(s, i) == i + |Quoted(Written(us)) + ":"|
  {
    var quoted := Quoted(Written(us));
    AtConcat(s, i, quoted, ":");
    AtChar(s, i + |quoted|, ":", 0);
    assert ColonEnd(s, i + |quoted|) == i + |quoted| + 1;
    LiteralFound(s, i, us);
  }

  /** A serialised string literal is matched, and so coloured, in one piece. */
  lemma {:induction false} LiteralMatchedWhole(s: string, i: nat, us: seq<Unit>)
    requires GoodUnits(us) && At(s, i, Quoted(Written(us)))
    ensures i < |s| && MatchEnd(s, i) >= i + |Quoted(Written(us))|
  {
    LiteralFound(s, i, us);
  }

  /** At the end of a word or number stands punctuation, or nothing. */
  predicate Delimited(s: string, e: nat) {
    e < |s| ==> IsPunct(s[e])
  }

  lemma {:induction false} WordFound(s: string, i: nat, w: string)
    requires (w == "true" || w == "false" || w == "null") && At(s, i, w)
    requires (i == 0 || !IsWord(s[i - 1])) && Delimited(s, i + |w|)
    ensures i < |s| && MatchEnd(s, i) == i + |w|
  {
    AtChar(s, i, w, 0);
    assert s[i..][..|w|] == w;
    assert w <= s[i..];
    assert WordAt(s, i, w);
    if w == "false" {
      assert !WordAt(s, i, "true") && !WordAt(s, i, "null");
    }
  }

  lemma {:induction false} ExponentFound(s: string, c: nat, n: Numeral)
    requires GoodNumeral(n) && At(s, c, ExponentText(n)) && Delimited(s, c + |ExponentText(n)|)
    ensures ExponentEnd(s, c) == c + |ExponentText(n)|
  {
    if n.exponent.Some? {
      var sign, digits := n.exponent.value.0, n.exponent.value.1;
      AtConcat(s, c, ['e', sign], digits);
      AtChar(s, c, ['e', sign], 0);
      AtChar(s, c, ['e', sign], 1);
      AtRun(s, c + 2, digits);
    }
  }

  lemma {:induction false} FractionFound(s: string, b: nat, n: Numeral)
    requires GoodNumeral(n) && At(s, b, FractionText(n))
    requires b + |FractionText(n)| < |s| ==> !IsDigit(s[b + |FractionText(n)|])
    requires n.fraction.None? && b < |s| ==> s[b] != '.'
    ensures FractionEnd(s, b) == b + |FractionText(n)|
  {
    if n.fraction.Some? {
      AtConcat(s, b, ".", n.fraction.value);
      AtChar(s, b, ".", 0);
      AtRun(s, b + 1, n.fraction.value);
    }
  }

  /** Where the fraction and the exponent start, the digits before them end. */
  lemma {:induction false} PartsEndDigits(s: string, i: nat, n: Numeral)
    requires GoodNumeral(n) && At(s, i, FractionText(n) + ExponentText(n))
    requires Delimited(s, i + |FractionText(n) + ExponentText(n)|)
    ensures At(s, i, FractionText(n)) && At(s, i + |FractionText(n)|, ExponentText(n))
    ensures i < |s| ==> !IsDigit(s[i]) && (n.fraction.None? ==> s[i] != '.')
    ensures i + |FractionText(n)| < |s| ==> !IsDigit(s[i + |FractionText(n)|])
  {
    AtConcat(s, i, FractionText(n), ExponentText(n));
    if n.exponent.Some? {
      AtChar(s, i + |FractionText(n)|, ExponentText(n), 0);
    }
    if n.fraction.Some? {
      AtChar(s, i, FractionText(n), 0);
    }
  }

  lemma {:induction false} DigitsThenParts(s: string, a: nat, n: Numeral)
    requires GoodNumeral(n) && At(s, a, n.whole + (FractionText(n) + ExponentText(n)))
    requires Delimited(s, a + |n.whole + (FractionText(n) + ExponentText(n))|)
    ensures var b := a + |n.whole|;
            && RunEnd(s, a, IsDigit) == b > a && b <= |s|
            && At(s, b, FractionText(n) + ExponentText(n)) && Delimited(s, b + |FractionText(n) + ExponentText(n)|)
  {
    AtConcat(s, a, n.whole, FractionText(n) + ExponentText(n));
    PartsEndDigits(s, a + |n.whole|, n);
    AtRun(s, a, n.whole);
  }

  lemma {:induction false} SignFound(s: string, i: nat, n: Numeral, rest: string)
    requires GoodNumeral(n) && At(s, i, SignText(n) + (n.whole + rest))
    ensures var a := if n.negative then i + 1 else i;
            && a < |s| && IsDigit(s[a]) && At(s, a, n.whole + rest)
            && (s[i] == '-' <==> n.negative)
  {
    AtConcat(s, i, SignText(n), n.whole + rest);
    var a := i + |SignText(n)|;
    AtConcat(s, a, n.whole, rest);
    AtChar(s, a, n.whole, 0);
    if n.negative {
      AtChar(s, i, SignText(n), 0);
    }
  }

  lemma {:induction false} PartsFound(s: string, b: nat, n: Numeral)
    requires GoodNumeral(n) && At(s, b, FractionText(n) + ExponentText(n))
    requires Delimited(s, b + |FractionText(n) + ExponentText(n)|)
    ensures ExponentEnd(s, FractionEnd(s, b)) == b + |FractionText(n) + ExponentText(n)|
  {
    PartsEndDigits(s, b, n);
    FractionFound(s, b, n);
    ExponentFound(s, b + |FractionText(n)|, n);
  }

  lemma {:induction false} NumberFound(s: string, i: nat, n: Numeral)
    requires GoodNumeral(n) && At(s, i, NumText(n)) && Delimited(s, i + |NumText(n)|)
    ensures i < |s| && (s[i] == '-' || IsDigit(s[i])) && NumberEnd(s, i) == i + |NumText(n)|
  {
    var rest := FractionText(n) + ExponentText(n);
    assert |NumText(n)| == |SignText(n)| + |n.whole| + |rest|;
    SignFound(s, i, n, rest);
    NumberAfterSign(s, i, if n.negative then i + 1 else i, n, rest);
  }

  lemma {:induction false} NumberAfterSign(s: string, i: nat, a: nat, n: Numeral, rest: string)
    requires GoodNumeral(n) && rest == FractionText(n) + ExponentText(n)
    requires i < |s| && a == (if s[i] == '-' then i + 1 else i) && At(s, a, n.whole + rest)
    requires Delimited(s, a + |n.whole| + |rest|)
    ensures NumberEnd(s, i) == a + |n.whole| + |rest|
  {
    assert |n.whole + rest| == |n.whole| + |rest|;
    DigitsThenParts(s, a, n);
    PartsFound(s, a + |n.whole|, n);
  }

  lemma {:induction false} NumberMatched(s: string, i: nat, n: Numeral)
    requires GoodNumeral(n) && At(s, i, NumText(n)) && Delimited(s, i + |NumText(n)|)
    ensures i < |s| && MatchEnd(s, i) == i + |NumText(n)|
  {
    NumberFound(s, i, n);
    assert !WordAt(s, i, "true") && !WordAt(s, i, "null") && !WordAt(s, i, "false");
  }

  // ----- The scan -------------------------------------------------------------------------------------

  /** No colon comes after a string, punctuation or nothing after a word or number, and no word
      character before a word. */
  predicate Placed(s: string, i: nat, l: Lexeme)
    requires i + |Text(l)| <= |s|
  {
    var e := i + |Text(l)|;
    && (l.Str? ==> ColonEnd(s, e) == e)
    && (l.Word? || l.Num? ==> Delimited(s, e))
    && (l.Word? ==> i == 0 || !IsWord(s[i - 1]))
  }

  lemma {:induction false} StringFound(s: string, i: nat, us: seq<Unit>, e: nat)
    requires GoodUnits(us) && At(s, i, Quoted(Written(us))) && e == i + |Quoted(Written(us))| && ColonEnd(s, e) == e
    ensures i < |s| && MatchEnd(s, i) == e
  {
    LiteralFound(s, i, us);
  }

  lemma {:induction false} MarkFound(s: string, i: nat, c: char)
    requires IsPunct(c) && At(s, i, [c])
    ensures i < |s| && MatchEnd(s, i) == i
  {
    AtChar(s, i, [c], 0);
    assert RunEnd(s, i, IsDigit) == i;
  }

  lemma {:induction false} LexemeFound(s: string, i: nat, l: Lexeme)
    requires Good(l) && At(s, i, Text(l)) && Placed(s, i, l)
    ensures i < |s| && MatchEnd(s, i) == if l.Punct? then i else i + |Text(l)|
  {
    match l
    case Str(us) => StringFound(s, i, us, i + |Text(l)|);
    case Key(us) => KeyFound(s, i, us);
    case Word(w) => WordFound(s, i, w);
    case Num(n) => NumberMatched(s, i, n);
    case Punct(c) => MarkFound(s, i, c);
  }

  // ----- Lexemes in a row ---------------------------------------------------------------------------------

  datatype Class = AString | AKey | AWord | ANumber | AMark

  function ClassOf(l: Lexeme): Class {
    match l
    case Str(_) => AString
    case Key(_) => AKey
    case Word(_) => AWord
    case Num(_) => ANumber
    case Punct(_) => AMark
  }

  function Classes(ls: seq<Lexeme>): seq<Class> {
    seq(|ls|, k requires 0 <= k < |ls| => ClassOf(ls[k]))
  }

  /** What the first and last characters of a lexeme's text can be. */
  predicate Spelt(t: string, c: Class) {
    && t != "" && t[0] != ':'
    && (IsSpace(t[0]) ==> c == AMark)
    && (c == AMark ==> |t| == 1 && IsPunct(t[0]))
    && (c != AWord && c != ANumber ==> !IsWord(t[|t| - 1]))
  }

  lemma {:induction false} LexemeSpelt(l: Lexeme)
    requires Good(l)
    ensures Spelt(Text(l), ClassOf(l))
  {
    var t := Text(l);
    match l
    case Str(us) => assert t[0] == '"' && t[|t| - 1] == '"';
    case Key(us) => assert t[0] == '"' && t[|t| - 1] == ':';
    case Word(_) =>
    case Num(n) => assert t[0] == if n.negative then '-' else n.whole[0];
    case Punct(_) =>
  }

  /** A word or a number is followed by punctuation. */
  predicate Separate(cs: seq<Class>) {
    forall k :: 0 <= k < |cs| - 1 && (cs[k] == AWord || cs[k] == ANumber) ==> cs[k + 1] == AMark
  }

  predicate InARow(ts: seq<string>, cs: seq<Class>) {
    && |ts| == |cs| && Separate(cs)
    && forall k :: 0 <= k < |ts| ==> Spelt(ts[k], cs[k])
  }

  function Pos(ts: seq<string>, k: nat): nat
    requires k <= |ts|
  {
    |Concat(ts[..k])|
  }

  lemma {:induction false} PosNext(ts: seq<string>, k: nat)
    requires k < |ts|
    ensures Pos(ts, k + 1) == Pos(ts, k) + |ts[k]|
  {
    assert ts[..k + 1][..k] == ts[..k];
  }

  lemma {:induction false} StandsAt(ts: seq<string>, k: nat)
    requires k < |ts|
    ensures At(Concat(ts), Pos(ts, k), ts[k]) && Pos(ts, |ts|) == |Concat(ts)|
  {
    var init, last := ts[..|ts| - 1], ts[|ts| - 1];
    assert ts[..|ts|] == ts;
    if k < |init| {
      StandsAt(init, k);
      assert init[..k] == ts[..k];
      var p, w := Pos(init, k), init[k];
      assert (Concat(init) + last)[p..p + |w|] == Concat(init)[p..p + |w|];
    } else {
      assert ts[..k] == init;
      assert (Concat(init) + last)[|Concat(init)|..] == last;
    }
  }

  lemma {:induction false} FirstCharAt(ts: seq<string>, cs: seq<Class>, k: nat)
    requires InARow(ts, cs) && k < |ts|
    ensures var p := Pos(ts, k); p < |Concat(ts)| && Concat(ts)[p] == ts[k][0]
  {
    StandsAt(ts, k);
    assert Spelt(ts[k], cs[k]);
    AtChar(Concat(ts), Pos(ts, k), ts[k], 0);
  }

  /** Between lexemes no colon follows white space. */
  lemma {:induction false} NoColonAhead(ts: seq<string>, cs: seq<Class>, k: nat)
    requires InARow(ts, cs) && k <= |ts|
    ensures var p := Pos(ts, k); p <= |Concat(ts)| && ColonEnd(Concat(ts), p) == p
    decreases |ts| - k
  {
    assert ts[..|ts|] == ts;
    if k < |ts| {
      assert Spelt(ts[k], cs[k]);
      FirstCharAt(ts, cs, k);
      NoColonAhead(ts, cs, k + 1);
      PosNext(ts, k);
      SpaceThenMore(Concat(ts), Pos(ts, k));
    }
  }

  lemma {:induction false} DelimitedAfter(ts: seq<string>, cs: seq<Class>, k: nat)
    requires InARow(ts, cs) && k < |ts| && (cs[k] == AWord || cs[k] == ANumber)
    ensures Delimited(Concat(ts), Pos(ts, k + 1))
  {
    if k + 1 < |ts| {
      assert Spelt(ts[k + 1], cs[k + 1]);
      FirstCharAt(ts, cs, k + 1);
    } else {
      StandsAt(ts, k);
    }
  }

  lemma {:induction false} BoundaryBefore(ts: seq<string>, cs: seq<Class>, k: nat)
    requires InARow(ts, cs) && k < |ts| && cs[k] == AWord
    ensures var p := Pos(ts, k); p == 0 || (p <= |Concat(ts)| && !IsWord(Concat(ts)[p - 1]))
  {
    if k > 0 {
      assert Spelt(ts[k - 1], cs[k - 1]);
      StandsAt(ts, k - 1);
      PosNext(ts, k - 1);
      AtChar(Concat(ts), Pos(ts, k - 1), ts[k - 1], |ts[k - 1]| - 1);
    }
  }

  /** The match found where a lexeme stands. */
  lemma {:induction false} FoundAt(ts: seq<string>, cs: seq<Class>, k: nat, l: Lexeme)
    requires InARow(ts, cs) && k < |ts| && ts[k] == Text(l) && cs[k] == ClassOf(l) && Good(l)
    ensures var s, p := Concat(ts), Pos(ts, k);
            p < |s| && MatchEnds(s)[p] == if cs[k] == AMark then p else p + |ts[k]|
  {
    StandsAt(ts, k);
    PosNext(ts, k);
    match l {
      case Str(_) => NoColonAhead(ts, cs, k + 1);
      case Key(_) =>
      case Word(_) =>
        DelimitedAfter(ts, cs, k);
        BoundaryBefore(ts, cs, k);
      case Num(_) => DelimitedAfter(ts, cs, k);
      case Punct(_) =>
    }
    assert Placed(Concat(ts), Pos(ts, k), l);
    LexemeFound(Concat(ts), Pos(ts, k), l);
  }

  // ----- The scan ----------------------------------------------------------------------------------------------

  function TokensFrom(ts: seq<string>, cs: seq<Class>, k: nat): seq<Token>
    requires k <= |ts| == |cs|
    decreases |ts| - k
  {
    if k == |ts| then [] else [if cs[k] == AMark then Gap(ts[k]) else Match(ts[k])] + TokensFrom(ts, cs, k + 1)
  }

  lemma {:induction false} ScanStep(s: string, ends: seq<nat>, p: nat, t: string, mark: bool)
    requires Ends(s, ends) && At(s, p, t) && t != "" && (mark ==> |t| == 1)
    requires ends[p] == if mark then p else p + |t|
    ensures Tokens(s, ends, p) == [if mark then Gap(t) else Match(t)] + Tokens(s, ends, p + |t|)
  {}

  /** The match that starts where text `k` stands, if any, ends where it does. */
  predicate EndsRight(ts: seq<string>, cs: seq<Class>, ends: seq<nat>, k: nat)
    requires k < |ts| == |cs|
  {
    Pos(ts, k) < |ends| && ends[Pos(ts, k)] == if cs[k] == AMark then Pos(ts, k) else Pos(ts, k) + |ts[k]|
  }

  /** Where text `k` stands and where the next one does. */
  lemma {:induction false} EndsRightAt(ts: seq<string>, cs: seq<Class>, ends: seq<nat>, k: nat, s: string, p: nat)
    requires InARow(ts, cs) && k < |ts| && Ends(s, ends) && s == Concat(ts) && p == Pos(ts, k)
    requires EndsRight(ts, cs, ends, k)
    ensures p + |ts[k]| == Pos(ts, k + 1)
    ensures At(s, p, ts[k]) && ts[k] != "" && (cs[k] == AMark ==> |ts[k]| == 1)
    ensures ends[p] == if cs[k] == AMark then p else p + |ts[k]|
  {
    assert Spelt(ts[k], cs[k]);
    StandsAt(ts, k);
    PosNext(ts, k);
  }

  lemma {:induction false} ScanFrom(ts: seq<string>, cs: seq<Class>, ends: seq<nat>, k: nat, s: string, p: nat)
    requires InARow(ts, cs) && k <= |ts| && Ends(s, ends) && s == Concat(ts) && p == Pos(ts, k)
    requires forall j: nat :: j < |ts| ==> EndsRight(ts, cs, ends, j)
    ensures p <= |s| && Tokens(s, ends, p) == TokensFrom(ts, cs, k)
    decreases |ts| - k
  {
    if k == |ts| {
      assert ts[..k] == ts;
    } else {
      EndsRightAt(ts, cs, ends, k, s, p);
      ScanStep(s, ends, p, ts[k], cs[k] == AMark);
      ScanFrom(ts, cs, ends, k + 1, s, p + |ts[k]|);
    }
  }

  ghost predicate Separated(ls: seq<Lexeme>) {
    forall k :: 0 <= k < |ls| - 1 && (ls[k].Word? || ls[k].Num?) ==> ls[k + 1].Punct?
  }

  ghost predicate AllGood(ls: seq<Lexeme>) {
    forall k :: 0 <= k < |ls| ==> Good(ls[k])
  }

  lemma {:induction false} LexemesInARow(ls: seq<Lexeme>)
    requires AllGood(ls) && Separated(ls)
    ensures InARow(Spellings(ls), Classes(ls))
  {
    forall k | 0 <= k < |ls|
      ensures Spelt(Spellings(ls)[k], Classes(ls)[k])
    {
      assert Good(ls[k]);
      LexemeSpelt(ls[k]);
    }
    forall k | 0 <= k < |ls| - 1 && (Classes(ls)[k] == AWord || Classes(ls)[k] == ANumber)
      ensures Classes(ls)[k + 1] == AMark
    {
      assert ls[k].Word? || ls[k].Num?;
    }
  }

  function TokenOf(l: Lexeme): Token {
    if l.Punct? then Gap(Text(l)) else Match(Text(l))
  }

  function TokensOf(ls: seq<Lexeme>): seq<Token> {
    seq(|ls|, k requires 0 <= k < |ls| => TokenOf(ls[k]))
  }

  lemma {:induction false} TokensFromOf(ls: seq<Lexeme>, k: nat)
    requires k <= |ls|
    ensures TokensFrom(Spellings(ls), Classes(ls), k) == TokensOf(ls)[k..]
    decreases |ls| - k
  {
    if k < |ls| {
      TokensFromOf(ls, k + 1);
      assert TokensOf(ls)[k..] == [TokensOf(ls)[k]] + TokensOf(ls)[k + 1..];
    }
  }

  /** The tokens found in the text of separated lexemes are these lexemes. */
  lemma {:induction false} TokensAreLexemes(ls: seq<Lexeme>)
    requires AllGood(ls) && Separated(ls)
    ensures var s := Concat(Spellings(ls)); Tokens(s, MatchEnds(s), 0) == TokensOf(ls)
  {
    var ts, cs := Spellings(ls), Classes(ls);
    LexemesInARow(ls);
    forall k: nat | k < |ts|
      ensures EndsRight(ts, cs, MatchEnds(Concat(ts)), k)
    {
      assert Good(ls[k]);
      FoundAt(ts, cs, k, ls[k]);
    }
    assert ts[..0] == [];
    ScanFrom(ts, cs, MatchEnds(Concat(ts)), 0, Concat(ts), 0);
    TokensFromOf(ls, 0);
  }

  // ----- Colours -----------------------------------------------------------------------------------------

  /** Keys and their colons, strings, booleans, null and numbers each have their own colour. */
  function PiecesOf(l: Lexeme): seq<Piece> {
    match l
    case Key(us) => [Coloured(Cyan400, Quoted(Written(us)))] + [Coloured(Gray300, ":")]
    case Str(_) => [Coloured(Green400, Text(l))]
    case Word(w) => [Coloured(if w == "null" then Purple400 else Yellow400, w)]
    case Num(_) => [Coloured(Blue400, Text(l))]
    case Punct(_) => [Bare(Text(l))]
  }

  function AllPieces(ls: seq<Lexeme>): seq<Piece> {
    if ls == [] then [] else PiecesOf(ls[0]) + AllPieces(ls[1..])
  }

  lemma {:induction false} ContainsFirst(m: string, word: string)
    requires word != "" && forall k :: 0 <= k < |m| ==> m[k] != word[0]
    ensures !Contains(m, word)
    decreases |m|
  {
    if m != "" {
      assert m[0] != word[0];
      ContainsFirst(m[1..], word);
    }
  }

  predicate Numeric(c: char) {
    IsDigit(c) || c == '-' || c == '+' || c == '.' || c == 'e'
  }

  lemma {:induction false} NumeralIsNumeric(n: Numeral)
    requires GoodNumeral(n)
    ensures NumText(n) != "" && forall k :: 0 <= k < |NumText(n)| ==> Numeric(NumText(n)[k])
  {
    assert forall k :: 0 <= k < |FractionText(n)| ==> Numeric(FractionText(n)[k]);
    assert forall k :: 0 <= k < |ExponentText(n)| ==> Numeric(ExponentText(n)[k]);
  }

  lemma {:induction false} NumberColour(n: Numeral)
    requires GoodNumeral(n)
    ensures NumText(n) != "" && Wrap(NumText(n)) == [Coloured(Blue400, NumText(n))]
  {
    var m := NumText(n);
    NumeralIsNumeric(n);
    assert Numeric(m[0]);
    ContainsFirst(m, "true");
    ContainsFirst(m, "false");
    ContainsFirst(m, "null");
  }

  lemma {:induction false} WordColour(w: string)
    requires w == "true" || w == "false" || w == "null"
    ensures Wrap(w) == PiecesOf(Word(w))
  {
    if w == "null" {
      ContainsFirst(w, "true");
      ContainsFirst(w, "false");
    }
    assert Contains(w, w);
  }

  lemma {:induction false} LexemeColour(l: Lexeme)
    requires Good(l)
    ensures TokenPieces(TokenOf(l)) == PiecesOf(l)
  {
    LexemeSpelt(l);
    match l
    case Str(us) => assert Text(l)[|Text(l)| - 1] == '"';
    case Key(us) =>
      var m := Text(l);
      assert m[0] == '"' && m[|m| - 1] == ':' && m[..|m| - 1] == Quoted(Written(us));
    case Word(w) => WordColour(w);
    case Num(n) => NumberColour(n);
    case Punct(c) =>
  }

  lemma {:induction false} LexemesColour(ls: seq<Lexeme>)
    requires AllGood(ls)
    ensures JsonPieces(TokensOf(ls)) == AllPieces(ls)
    decreases |ls|
  {
    if ls != [] {
      assert Good(ls[0]);
      LexemeColour(ls[0]);
      assert AllGood(ls[1..]);
      LexemesColour(ls[1..]);
      assert TokensOf(ls)[1..] == TokensOf(ls[1..]);
    }
  }

  // ----- Escaping serialised text ---------------------------------------------------------------------------

  predicate Unescaped(s: string) {
    forall k :: 0 <= k < |s| ==> Entity(s[k]) == [s[k]]
  }

  lemma {:induction false} NothingToEscape(s: string)
    requires Unescaped(s)
    ensures EscapeHtml(s) == s
    decreases |s|
  {
    EscapeIsPerCharacter(s);
    if s != "" {
      NothingToEscape(s[1..]);
      EscapeIsPerCharacter(s[1..]);
      assert s == [s[0]] + s[1..];
    }
  }

  lemma {:induction false} UnitEscaped(u: Unit)
    requires Serialised(u)
    ensures EscapeHtml(RawUnit(u)) == WrittenUnit(u)
  {
    match u
    case Plain(c) => EscapeOne(c);
    case Escaped(c) => NothingToEscape(['\\', c]);
    case Unicode(hex) => NothingToEscape("\\u" + hex);
  }

  lemma {:induction false} UnitsEscaped(us: seq<Unit>)
    requires GoodUnits(us)
    ensures EscapeHtml(Raw(us)) == Written(us)
    decreases |us|
  {
    if us == [] {
      NothingToEscape("");
    } else {
      assert Serialised(us[0]);
      UnitEscaped(us[0]);
      assert GoodUnits(us[1..]);
      UnitsEscaped(us[1..]);
      EscapeConcat(RawUnit(us[0]), Raw(us[1..]));
    }
  }

  lemma {:induction false} QuotedEscaped(us: seq<Unit>)
    requires GoodUnits(us)
    ensures EscapeHtml(Quoted(Raw(us))) == Quoted(Written(us))
  {
    UnitsEscaped(us);
    NothingToEscape(['"']);
    EscapeConcat(Raw(us), ['"']);
    EscapeConcat(['"'], Raw(us) + ['"']);
  }

  lemma {:induction false} NumEscaped(n: Numeral)
    requires GoodNumeral(n)
    ensures EscapeHtml(NumText(n)) == NumText(n)
  {
    NumeralIsNumeric(n);
    forall k | 0 <= k < |NumText(n)|
      ensures Entity(NumText(n)[k]) == [NumText(n)[k]]
    {
      assert Numeric(NumText(n)[k]);
    }
    NothingToEscape(NumText(n));
  }

  lemma {:induction false} LexemeEscaped(l: Lexeme)
    requires Good(l)
    ensures EscapeHtml(RawText(l)) == Text(l)
  {
    match l
    case Str(us) => QuotedEscaped(us);
    case Key(us) =>
      QuotedEscaped(us);
      NothingToEscape(":");
      EscapeConcat(Quoted(Raw(us)), ":");
    case Word(w) => NothingToEscape(w);
    case Num(n) => NumEscaped(n);
    case Punct(c) => NothingToEscape([c]);
  }

  lemma {:induction false} ConcatEscaped(raws: seq<string>, ts: seq<string>)
    requires |raws| == |ts| && forall k :: 0 <= k < |ts| ==> EscapeHtml(raws[k]) == ts[k]
    ensures EscapeHtml(Concat(raws)) == Concat(ts)
    decreases |raws|
  {
    if raws == [] {
      NothingToEscape("");
    } else {
      var n := |raws| - 1;
      ConcatEscaped(raws[..n], ts[..n]);
      EscapeConcat(Concat(raws[..n]), raws[n]);
    }
  }

  lemma {:induction false} LexemesEscaped(ls: seq<Lexeme>)
    requires AllGood(ls)
    ensures EscapeHtml(Concat(RawSpellings(ls))) == Concat(Spellings(ls))
  {
    forall k | 0 <= k < |ls|
      ensures EscapeHtml(RawSpellings(ls)[k]) == Spellings(ls)[k]
    {
      assert Good(ls[k]);
      LexemeEscaped(ls[k]);
    }
    ConcatEscaped(RawSpellings(ls), Spellings(ls));
  }

  // ----- Values -------------------------------------------------------------------------------------------------

  datatype Json =
    | Null
    | Bool(b: bool)
    | Number(n: Numeral)
    | String(us: seq<Unit>)
    | Array(items: seq<Json>)
    | Object(fields: seq<Field>)

  datatype Field = Field(name: seq<Unit>, value: Json)

  ghost predicate GoodJson(v: Json) {
    match v
    case Null => true
    case Bool(_) => true
    case Number(n) => GoodNumeral(n)
    case String(us) => GoodUnits(us)
    case Array(items) => forall k :: 0 <= k < |items| ==> GoodJson(items[k])
    case Object(fields) => forall k :: 0 <= k < |fields| ==> GoodUnits(fields[k].name) && GoodJson(fields[k].value)
  }

  function Spaces(n: nat, rest: seq<Lexeme>): seq<Lexeme> {
    if n == 0 then rest else [Punct(' ')] + Spaces(n - 1, rest)
  }

  function Line(indent: nat, rest: seq<Lexeme>): seq<Lexeme> {
    [Punct('\n')] + Spaces(indent, rest)
  }

  /** The lexemes of a value serialised with an indent of two, followed by `rest`. */
  function Lexemes(v: Json, indent: nat, rest: seq<Lexeme>): seq<Lexeme>
    decreases v
  {
    match v
    case Null => [Word("null")] + rest
    case Bool(b) => [Word(if b then "true" else "false")] + rest
    case Number(n) => [Num(n)] + rest
    case String(us) => [Str(us)] + rest
    case Array(items) =>
      if items == [] then [Punct('[')] + ([Punct(']')] + rest)
      else [Punct('[')] + Items(items, indent + 2, Line(indent, [Punct(']')] + rest))
    case Object(fields) =>
      if fields == [] then [Punct('{')] + ([Punct('}')] + rest)
      else [Punct('{')] + Fields(fields, indent + 2, Line(indent, [Punct('}')] + rest))
  }

  function Items(items: seq<Json>, indent: nat, rest: seq<Lexeme>): seq<Lexeme>
    decreases items
  {
    if items == [] then rest
    else
      var more := if |items| == 1 then rest else [Punct(',')] + Items(items[1..], indent, rest);
      Line(indent, Lexemes(items[0], indent, more))
  }

  function Fields(fields: seq<Field>, indent: nat, rest: seq<Lexeme>): seq<Lexeme>
    decreases fields
  {
    if fields == [] then rest
    else
      var more := if |fields| == 1 then rest else [Punct(',')] + Fields(fields[1..], indent, rest);
      Line(indent, [Key(fields[0].name)] + ([Punct(' ')] + Lexemes(fields[0].value, indent, more)))
  }

  /** The text of a value: its lexemes, one after the other. */
  function Stringify(v: Json): string {
    Concat(RawSpellings(Lexemes(v, 0, [])))
  }

  /** Well-formed lexemes that may follow a word or a number. */
  ghost predicate Ready(ls: seq<Lexeme>) {
    AllGood(ls) && Separated(ls) && (ls != [] ==> ls[0].Punct?)
  }

  lemma {:induction false} ConsPunct(c: char, rest: seq<Lexeme>)
    requires IsPunct(c) && AllGood(rest) && Separated(rest)
    ensures Ready([Punct(c)] + rest)
  {}

  lemma {:induction false} ConsOther(l: Lexeme, rest: seq<Lexeme>)
    requires Good(l) && Ready(rest)
    ensures AllGood([l] + rest) && Separated([l] + rest)
  {}

  lemma {:induction false} LineReady(indent: nat, rest: seq<Lexeme>)
    requires AllGood(rest) && Separated(rest)
    ensures Ready(Line(indent, rest))
  {
    SpacesGood(indent, rest);
    ConsPunct('\n', Spaces(indent, rest));
  }

  lemma {:induction false} SpacesGood(n: nat, rest: seq<Lexeme>)
    requires AllGood(rest) && Separated(rest)
    ensures AllGood(Spaces(n, rest)) && Separated(Spaces(n, rest))
  {
    if n > 0 {
      SpacesGood(n - 1, rest);
      ConsPunct(' ', Spaces(n - 1, rest));
    }
  }

  lemma {:induction false} LexemesGood(v: Json, indent: nat, rest: seq<Lexeme>)
    requires GoodJson(v) && Ready(rest)
    ensures AllGood(Lexemes(v, indent, rest)) && Separated(Lexemes(v, indent, rest))
    decreases v
  {
    match v
    case Null => ConsOther(Word("null"), rest);
    case Bool(b) => ConsOther(Word(if b then "true" else "false"), rest);
    case Number(n) => ConsOther(Num(n), rest);
    case String(us) => ConsOther(Str(us), rest);
    case Array(items) =>
      ConsPunct(']', rest);
      if items == [] {
        ConsPunct('[', [Punct(']')] + rest);
      } else {
        LineReady(indent, [Punct(']')] + rest);
        ItemsGood(items, indent + 2, Line(indent, [Punct(']')] + rest));
        ConsPunct('[', Items(items, indent + 2, Line(indent, [Punct(']')] + rest)));
      }
    case Object(fields) =>
      ConsPunct('}', rest);
      if fields == [] {
        ConsPunct('{', [Punct('}')] + rest);
      } else {
        LineReady(indent, [Punct('}')] + rest);
        FieldsGood(fields, indent + 2, Line(indent, [Punct('}')] + rest));
        ConsPunct('{', Fields(fields, indent + 2, Line(indent, [Punct('}')] + rest)));
      }
  }

  lemma {:induction false} ItemsGood(items: seq<Json>, indent: nat, rest: seq<Lexeme>)
    requires (forall k :: 0 <= k < |items| ==> GoodJson(items[k])) && Ready(rest)
    ensures Ready(Items(items, indent, rest))
    decreases items
  {
    if items != [] {
      var more := if |items| == 1 then rest else [Punct(',')] + Items(items[1..], indent, rest);
      if |items| > 1 {
        ItemsGood(items[1..], indent, rest);
        ConsPunct(',', Items(items[1..], indent, rest));
      }
      LexemesGood(items[0], indent, more);
      LineReady(indent, Lexemes(items[0], indent, more));
    }
  }

  lemma {:induction false} FieldsGood(fields: seq<Field>, indent: nat, rest: seq<Lexeme>)
    requires forall k :: 0 <= k < |fields| ==> GoodUnits(fields[k].name) && GoodJson(fields[k].value)
    requires Ready(rest)
    ensures Ready(Fields(fields, indent, rest))
    decreases fields
  {
    if fields != [] {
      var more := if |fields| == 1 then rest else [Punct(',')] + Fields(fields[1..], indent, rest);
      if |fields| > 1 {
        FieldsGood(fields[1..], indent, rest);
        ConsPunct(',', Fields(fields[1..], indent, rest));
      }
      var value := Lexemes(fields[0].value, indent, more);
      LexemesGood(fields[0].value, indent, more);
      ConsPunct(' ', value);
      ConsOther(Key(fields[0].name), [Punct(' ')] + value);
      LineReady(indent, [Key(fields[0].name)] + ([Punct(' ')] + value));
    }
  }

  /** Every serialised value is shown lexeme by lexeme, each key, string, boolean, null and number
      in the colour of its class and everything else bare, whatever the strings contain. */
  lemma {:induction false} JsonValuesColoured(v: Json)
    requires GoodJson(v)
    ensures HighlightJson(Stringify(v)) == Render(AllPieces(Lexemes(v, 0, [])))
  {
    var ls := Lexemes(v, 0, []);
    LexemesGood(v, 0, []);
    LexemesEscaped(ls);
    TokensAreLexemes(ls);
    LexemesColour(ls);
  }
}
