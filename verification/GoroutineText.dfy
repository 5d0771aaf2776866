/**
 Parsing a Go stack dump into goroutines and printing goroutines back as text.

 The three regular expressions of the parser are written out as the searches they perform,
 including their backtracking.
 */
module GoroutineText {
  import opened Options
  import opened Strings
  import opened Chars

  datatype Goroutine = Goroutine(id: string, state: string, duration: Option<string>, stack: string)

  // ----- Trimming -------------------------------------------------------------------

  function TrimStart(s: string): string {
    if s != "" && IsSpace(s[0]) then TrimStart(s[1..]) else s
  }

  function TrimEnd(s: string): string {
    if s != "" && IsSpace(s[|s| - 1]) then TrimEnd(s[..|s| - 1]) else s
  }

  function Trim(s: string): string {
    TrimEnd(TrimStart(s))
  }

  predicate Trimmed(s: string) {
    s == "" || (!IsSpace(s[0]) && !IsSpace(s[|s| - 1]))
  }

  lemma {:induction false} TrimEndShape(s: string)
    ensures TrimEnd(s) <= s
    ensures TrimEnd(s) == "" || !IsSpace(TrimEnd(s)[|TrimEnd(s)| - 1])
    decreases |s|
  {
    if s != "" && IsSpace(s[|s| - 1]) {
      TrimEndShape(s[..|s| - 1]);
    }
  }

  lemma {:induction false} TrimStartShape(s: string)
    ensures TrimStart(s) == "" || !IsSpace(TrimStart(s)[0])
    decreases |s|
  {
    if s != "" && IsSpace(s[0]) {
      TrimStartShape(s[1..]);
    }
  }

  lemma TrimIsTrimmed(s: string)
    ensures Trimmed(Trim(s))
  {
    TrimStartShape(s);
    TrimEndShape(TrimStart(s));
  }

  lemma {:induction false} TrimStartKeeps(s: string, i: nat)
    requires i < |s| && !IsSpace(s[i])
    ensures |s| - i <= |TrimStart(s)| <= |s| && TrimStart(s) == s[|s| - |TrimStart(s)|..]
    decreases |s|
  {
    if IsSpace(s[0]) {
      TrimStartKeeps(s[1..], i - 1);
    }
  }

  lemma {:induction false} TrimEndKeeps(s: string, j: nat)
    requires j < |s| && !IsSpace(s[j])
    ensures |TrimEnd(s)| > j
    decreases |s|
  {
    if IsSpace(s[|s| - 1]) {
      TrimEndKeeps(s[..|s| - 1], j);
    }
  }

  /** Trimming keeps whatever lies between two characters that are not spaces. */
  lemma {:induction false} TrimSpan(s: string, i: nat, j: nat)
    requires i <= j < |s| && !IsSpace(s[i]) && !IsSpace(s[j])
    ensures |Trim(s)| > j - i
  {
    TrimStartKeeps(s, i);
    TrimEndKeeps(TrimStart(s), j - (|s| - |TrimStart(s)|));
  }

  lemma TrimKeeps(s: string)
    requires Trimmed(s)
    ensures Trim(s) == s && Trim(s + "\n") == s
  {
    if s == "" {
      assert "" + "\n" == "\n";
      assert "\n"[1..] == "";
      assert TrimStart("\n") == "";
    } else {
      assert TrimStart(s + "\n") == s + "\n";
      assert (s + "\n")[..|s|] == s;
    }
  }

  // ----- Splitting before each goroutine header ----------------------------------------

  const HEAD := "goroutine "

  /** A line of `s` starts at `q` with `goroutine` and a digit. */
  predicate Starts(s: string, q: nat) {
    && q + |HEAD| < |s|
    && (q == 0 || IsLineTerminator(s[q - 1]))
    && s[q..q + |HEAD|] == HEAD
    && IsDigit(s[q + |HEAD|])
  }

  predicate NoStartFrom(s: string, from: nat) {
    forall q :: from <= q < |s| ==> !Starts(s, q)
  }

  function NextStart(s: string, from: nat): (q: nat)
    requires from <= |s|
    ensures from <= q <= |s| && (q < |s| ==> Starts(s, q))
    decreases |s| - from
  {
    if from == |s| || Starts(s, from) then from else NextStart(s, from + 1)
  }

  lemma {:induction false} NextStartIs(s: string, from: nat)
    requires from <= |s|
    ensures forall p :: from <= p < NextStart(s, from) ==> !Starts(s, p)
    decreases |s| - from
  {
    if from < |s| && !Starts(s, from) {
      NextStartIs(s, from + 1);
    }
  }

  /** `split` with a look-ahead cuts before every start but the one at 0. */
  function Parts(s: string): (parts: seq<string>)
    ensures |parts| >= 1
    decreases |s|
  {
    if s == "" then [s]
    else
      var q := NextStart(s, 1);
      if q == |s| then [s] else [s[..q]] + Parts(s[q..])
  }

  lemma StartsInPrefix(a: string, b: string, q: nat)
    requires a != "" && a[|a| - 1] == '\n' && q < |a|
    ensures Starts(a + b, q) <==> Starts(a, q)
  {
    var s := a + b;
    if q + |HEAD| < |a| {
      assert s[q..q + |HEAD|] == a[q..q + |HEAD|];
    } else if q + |HEAD| < |s| {
      var k := |a| - 1 - q;
      assert s[q + k] == '\n';
      if k < |HEAD| {
        assert s[q..q + |HEAD|][k] == s[q + k];
        assert HEAD[k] != '\n';
      }
    }
  }

  lemma StartsInSuffix(s: string, cut: nat, q: nat)
    requires cut < |s| && 1 <= q < |s| - cut
    ensures Starts(s[cut..], q) <==> Starts(s, cut + q)
  {
    if q + |HEAD| < |s| - cut {
      assert s[cut..][q..q + |HEAD|] == s[cut + q..cut + q + |HEAD|];
    }
  }

  lemma NextStartConcat(a: string, b: string)
    requires a != "" && a[|a| - 1] == '\n' && Starts(b, 0)
    ensures NextStart(a + b, 1) == NextStart(a, 1)
  {
    forall p | 0 <= p < |a|
      ensures Starts(a + b, p) <==> Starts(a, p)
    {
      StartsInPrefix(a, b, p);
    }
    assert (a + b)[|a|..|a| + |HEAD|] == b[0..|HEAD|];
    assert Starts(a + b, |a|);
    NextStartIs(a, 1);
    NextStartIs(a + b, 1);
  }

  lemma {:induction false} PartsCut(s: string, q: nat)
    requires s != "" && q < |s| && NextStart(s, 1) == q
    ensures Parts(s) == [s[..q]] + Parts(s[q..])
  {}

  lemma {:induction false} PartsConcatWhole(a: string, b: string)
    requires a != "" && b != "" && NextStart(a, 1) == |a| == NextStart(a + b, 1)
    ensures Parts(a + b) == Parts(a) + Parts(b)
  {
    PartsCut(a + b, |a|);
    assert (a + b)[..|a|] == a;
    assert (a + b)[|a|..] == b;
  }

  lemma {:induction false} PartsConcatCut(a: string, b: string, q: nat)
    requires a != "" && q < |a| && NextStart(a, 1) == q == NextStart(a + b, 1)
    requires Parts(a[q..] + b) == Parts(a[q..]) + Parts(b)
    ensures Parts(a + b) == Parts(a) + Parts(b)
  {
    SliceConcat(a, b, q);
    PartsCut(a + b, q);
    PartsCut(a, q);
    AssocParts(a[..q], Parts(a[q..]), Parts(b));
  }

  lemma {:induction false} SliceConcat(a: string, b: string, q: nat)
    requires q < |a|
    ensures (a + b)[..q] == a[..q] && (a + b)[q..] == a[q..] + b
  {}

  lemma {:induction false} AssocParts(part: string, some: seq<string>, more: seq<string>)
    ensures ([part] + some) + more == [part] + (some + more)
  {}

  /** Text that ends a line and text that starts a goroutine split independently. */
  lemma {:induction false} PartsConcat(a: string, b: string)
    requires a != "" && a[|a| - 1] == '\n' && Starts(b, 0)
    ensures Parts(a + b) == Parts(a) + Parts(b)
    decreases |a|
  {
    var q := NextStart(a, 1);
    NextStartConcat(a, b);
    if q < |a| {
      PartsConcat(a[q..], b);
      PartsConcatCut(a, b, q);
    } else {
      PartsConcatWhole(a, b);
    }
  }

  /** Cutting at a start leaves a start on both sides. */
  lemma {:induction false} CutAtStart(s: string, q: nat)
    requires Starts(s, 0) && 1 <= q < |s| && Starts(s, q)
    ensures Starts(s[..q], 0) && Starts(s[q..], 0)
  {
    assert forall k :: 0 <= k < |HEAD| ==> s[k] == s[0..|HEAD|][k] && !IsLineTerminator(HEAD[k]);
    assert q - 1 >= |HEAD|;
    assert s[..q][0..|HEAD|] == s[0..|HEAD|];
    assert s[q..][0..|HEAD|] == s[q..q + |HEAD|];
  }

  /** Every part of a text that starts with a goroutine starts with one. */
  lemma {:induction false} PartsStart(s: string)
    requires Starts(s, 0)
    ensures forall k :: 0 <= k < |Parts(s)| ==> Starts(Parts(s)[k], 0)
    decreases |s|
  {
    var q := NextStart(s, 1);
    if q < |s| {
      CutAtStart(s, q);
      PartsStart(s[q..]);
    }
  }

  // ----- Parsing one part -------------------------------------------------------------

  /** The id and the bracketed text of the header line. */
  function Header(part: string): Option<(string, string)> {
    if !(HEAD <= part) then None
    else
      var d := RunEnd(part, |HEAD|, IsDigit);
      if d == |HEAD| || d + 2 > |part| || part[d..d + 2] != " [" then None
      else
        var e := IndexOf(part, ']', d + 2);
        if e == d + 2 || e + 2 > |part| || part[e + 1] != ':' then None
        else Some((part[|HEAD|..d], part[d + 2..e]))
  }

  /** What follows a comma: spaces, then the rest of the line, which keeps the last space if
      there is nothing else. */
  function AfterComma(r: string): Option<string> {
    var w := RunEnd(r, 0, IsSpace);
    if w < |r| then (if OneLine(r[w..]) then Some(r[w..]) else None)
    else if r != "" && !IsLineTerminator(r[|r| - 1]) then Some([r[|r| - 1]])
    else None
  }

  /** The first way, by position of the comma, to read `info` as a state and a duration. */
  function StateAndDuration(info: string, k: nat): Option<(string, string)>
    requires k <= |info|
    decreases |info| - k
  {
    if k == |info| then None
    else if k >= 1 && info[k] == ',' && OneLine(info[..k]) && AfterComma(info[k + 1..]).Some? then
      Some((info[..k], AfterComma(info[k + 1..]).value))
    else StateAndDuration(info, k + 1)
  }

  function ParsePart(part: string): Goroutine {
    match Header(part)
    case None => Goroutine("?", "unknown", None, Trim(part))
    case Some((id, info)) =>
      var stack := Trim(Join(Split(part, '\n')[1..], '\n'));
      match StateAndDuration(info, 0)
      case Some((state, duration)) => Goroutine(id, state, Some(duration), stack)
      case None => Goroutine(id, info, None, stack)
  }

  function ParseParts(parts: seq<string>): seq<Goroutine> {
    if parts == [] then []
    else (if Trim(parts[0]) == "" then [] else [ParsePart(parts[0])]) + ParseParts(parts[1..])
  }

  function ParseGoroutines(text: string): seq<Goroutine> {
    ParseParts(Parts(text))
  }

  // ----- Printing -----------------------------------------------------------------------

  function Info(g: Goroutine): string {
    if g.duration.Some? && g.duration.value != "" then g.state + ", " + g.duration.value else g.state
  }

  function HeaderLine(g: Goroutine): string {
    HEAD + g.id + " [" + Info(g) + "]:"
  }

  function Format(g: Goroutine): string {
    HeaderLine(g) + "\n" + g.stack
  }

  function Formats(gs: seq<Goroutine>): seq<string> {
    seq(|gs|, k requires 0 <= k < |gs| => Format(gs[k]))
  }

  function Print(gs: seq<Goroutine>): string {
    Join(Formats(gs), '\n')
  }

  // ----- Well-formed headers ----------------------------------------------------------------

  /** A duration is read back if it is on one line and does not start with a space, or is one. */
  predicate DurationOk(duration: string) {
    duration != "" && OneLine(duration) && (|duration| == 1 || !IsSpace(duration[0]))
  }

  /** The bracketed text is read back: the state before a duration has no comma but as its first
      character, and in a state alone nothing follows a comma on its line. */
  predicate InfoOk(g: Goroutine) {
    g.state != "" &&
    match g.duration
    case Some(duration) => OneLine(g.state) && ',' !in g.state[1..] && DurationOk(duration)
    case None =>
      forall k :: 1 <= k < |g.state| && g.state[k] == ',' && OneLine(g.state[..k]) ==>
        AfterComma(g.state[k + 1..]).None?
  }

  predicate HeaderOk(g: Goroutine) {
    && g.id != "" && (forall k :: 0 <= k < |g.id| ==> IsDigit(g.id[k]))
    && InfoOk(g) && ']' !in Info(g) && '\n' !in Info(g)
    && NoStartFrom(HeaderLine(g), 1)
  }

  /** The stack is trimmed and none of its lines looks like another goroutine. */
  predicate StackOk(g: Goroutine) {
    Trimmed(g.stack) && NoStartFrom(g.stack, 0)
  }

  lemma {:induction false} IndexOfAt(s: string, c: char, from: nat, e: nat)
    requires from <= e < |s| && (forall k :: from <= k < e ==> s[k] != c) && s[e] == c
    ensures IndexOf(s, c, from) == e
  {
    IndexOfIs(s, c, from);
  }

  lemma HeaderFound(id: string, info: string, rest: string)
    requires id != "" && (forall k :: 0 <= k < |id| ==> IsDigit(id[k]))
    requires info != "" && ']' !in info
    ensures Header(HEAD + id + " [" + info + "]:" + rest) == Some((id, info))
  {
    var part := HEAD + id + " [" + info + "]:" + rest;
    var d, e := |HEAD| + |id|, |HEAD| + |id| + 2 + |info|;
    assert forall k :: 0 <= k < |id| ==> part[|HEAD| + k] == id[k];
    assert part[d..d + 2] == " [";
    assert part[d] == part[d..d + 2][0];
    RunEndAt(part, |HEAD|, IsDigit, d);
    assert part[d + 2..e] == info;
    assert forall k :: d + 2 <= k < e ==> part[k] == info[k - d - 2];
    IndexOfAt(part, ']', d + 2, e);
    assert part[|HEAD|..d] == id;
  }

  lemma {:induction false} NoDurationIff(info: string, k: nat)
    requires k <= |info|
    ensures StateAndDuration(info, k) == None <==>
            forall j :: k <= j < |info| && j >= 1 && info[j] == ',' && OneLine(info[..j]) ==>
              AfterComma(info[j + 1..]).None?
    decreases |info| - k
  {
    if k < |info| {
      NoDurationIff(info, k + 1);
    }
  }

  lemma {:induction false} AfterCommaIff(duration: string)
    ensures AfterComma(" " + duration) == Some(duration) <==> DurationOk(duration)
  {
    var r := " " + duration;
    assert RunEnd(r, 0, IsSpace) == RunEnd(r, 1, IsSpace);
    if duration != "" {
      assert r[1] == duration[0];
      assert r[1..] == duration;
      assert r[|r| - 1] == duration[|duration| - 1];
      assert !IsSpace(duration[0]) ==> RunEnd(r, 1, IsSpace) == 1;
      if |duration| == 1 {
        assert duration == [duration[0]];
        assert RunEnd(r, 2, IsSpace) == 2;
      }
    }
  }

  lemma {:induction false} DurationFound(state: string, duration: string, k: nat)
    requires state != "" && OneLine(state) && ',' !in state[1..] && k <= |state| && DurationOk(duration)
    ensures StateAndDuration(state + ", " + duration, k) == Some((state, duration))
    decreases |state| - k
  {
    var info := state + ", " + duration;
    if k < |state| {
      assert info[k] == state[k];
      assert k >= 1 ==> state[k] == state[1..][k - 1];
      DurationFound(state, duration, k + 1);
    } else {
      assert info[..k] == state;
      assert info[k + 1..] == " " + duration;
      AfterCommaIff(duration);
    }
  }

  /** The comma that is found is the first that counts. */
  lemma {:induction false} FoundAtFirst(info: string, k: nat)
    requires k <= |info| && StateAndDuration(info, k).Some?
    ensures var n := |StateAndDuration(info, k).value.0|;
            && k <= n && 1 <= n < |info| && info[n] == ',' && OneLine(info[..n])
            && AfterComma(info[n + 1..]).Some?
            && StateAndDuration(info, k) == Some((info[..n], AfterComma(info[n + 1..]).value))
            && forall j :: k <= j < n && j >= 1 && info[j] == ',' ==> AfterComma(info[j + 1..]).None?
    decreases |info| - k
  {
    if !(k >= 1 && info[k] == ',' && OneLine(info[..k]) && AfterComma(info[k + 1..]).Some?) {
      FoundAtFirst(info, k + 1);
      var n := |StateAndDuration(info, k).value.0|;
      assert OneLine(info[..k]) by {
        assert forall j :: 0 <= j < k ==> info[..k][j] == info[..n][j];
      }
    }
  }

  /** What the bracketed text is read as. */
  function Read(info: string): (string, Option<string>) {
    match StateAndDuration(info, 0)
    case Some((state, duration)) => (state, Some(duration))
    case None => (info, None)
  }

  lemma {:induction false} CommaCounts(state: string, duration: string, j: nat)
    requires 1 <= j < |state| && state[j] == ',' && OneLine(state) && OneLine(duration)
    ensures AfterComma((state + ", " + duration)[j + 1..]).Some?
  {
    var info := state + ", " + duration;
    var rest := info[j + 1..];
    assert info[|state|] == ',' && rest[|state| - j - 1] == ',';
    assert forall i :: 0 <= i < |info| ==> !IsLineTerminator(info[i]);
    var w := RunEnd(rest, 0, IsSpace);
    RunEndWithin(rest, 0, IsSpace);
    assert forall i :: 0 <= i < |rest[w..]| ==> rest[w..][i] == info[j + 1 + w + i];
  }

  lemma {:induction false} CutReadBack(state: string, duration: string)
    requires StateAndDuration(state + ", " + duration, 0) == Some((state, duration))
    ensures state != "" && OneLine(state) && DurationOk(duration)
    ensures forall j :: 1 <= j < |state| && state[j] == ',' ==> AfterComma((state + ", " + duration)[j + 1..]).None?
  {
    var info := state + ", " + duration;
    FoundAtFirst(info, 0);
    assert info[..|state|] == state;
    assert info[|state| + 1..] == " " + duration;
    AfterCommaIff(duration);
    assert forall j :: 0 <= j < |state| ==> info[j] == state[j];
  }

  lemma {:induction false} ReadSome(g: Goroutine, duration: string)
    requires g.duration == Some(duration) && duration != "" && Read(Info(g)) == (g.state, g.duration)
    ensures InfoOk(g)
  {
    CutReadBack(g.state, duration);
    if j :| 1 <= j < |g.state| && g.state[j] == ',' {
      CommaCounts(g.state, duration, j);
    }
    assert forall j :: 0 <= j < |g.state[1..]| ==> g.state[1..][j] == g.state[j + 1];
  }

  /** Exactly which states and durations are read back from the bracketed text. */
  lemma {:induction false} ReadIff(g: Goroutine)
    ensures Info(g) != "" && Read(Info(g)) == (g.state, g.duration) <==> InfoOk(g)
  {
    if g.duration.Some? && g.duration.value != "" {
      var duration := g.duration.value;
      if InfoOk(g) {
        DurationFound(g.state, duration, 0);
      }
      if Read(Info(g)) == (g.state, g.duration) {
        ReadSome(g, duration);
      }
    } else {
      NoDurationIff(g.state, 0);
      if StateAndDuration(g.state, 0).Some? {
        FoundAtFirst(g.state, 0);
      }
    }
  }

  /** The stack is everything after the header line. */
  lemma AfterHeaderLine(line: string, rest: string)
    requires '\n' !in line
    ensures Join(Split(line + "\n" + rest, '\n')[1..], '\n') == rest
  {
    var s := line + "\n" + rest;
    IndexOfFirst(line, '\n', rest);
    assert s[|line| + 1..] == rest;
    assert Split(s, '\n')[1..] == Split(rest, '\n');
    JoinSplit(rest, '\n');
  }

  /** One printed goroutine, with or without the newline that separates it from the next,
      parses back, but with its stack trimmed. */
  lemma ParseFormat(g: Goroutine, tail: string)
    requires HeaderOk(g)
    ensures ParsePart(Format(g) + tail) == g.(stack := Trim(g.stack + tail))
  {
    var text, line := g.stack + tail, HeaderLine(g);
    assert Format(g) + tail == line + "\n" + text;
    assert line + "\n" + text == line + ("\n" + text);
    HeaderFound(g.id, Info(g), "\n" + text);
    ReadIff(g);
    LineHasNoNewline(g);
    AfterHeaderLine(line, text);
  }

  lemma LineHasNoNewline(g: Goroutine)
    requires HeaderOk(g)
    ensures '\n' !in HeaderLine(g)
  {
    var line, info := HeaderLine(g), Info(g);
    forall k | 0 <= k < |line|
      ensures line[k] != '\n'
    {
      if |HEAD| <= k < |HEAD| + |g.id| {
        assert line[k] == g.id[k - |HEAD|];
      } else if |HEAD| + |g.id| + 2 <= k < |HEAD| + |g.id| + 2 + |info| {
        assert line[k] == info[k - |HEAD| - |g.id| - 2];
      }
    }
  }

  // ----- Where a printed goroutine splits --------------------------------------------------

  lemma FormatStarts(g: Goroutine, tail: string)
    requires HeaderOk(g)
    ensures Starts(Format(g) + tail, 0)
  {
    var s := Format(g) + tail;
    assert s[0..|HEAD|] == HEAD;
    assert s[|HEAD|] == g.id[0];
  }

  /** Starts inside the printed text are exactly starts inside the stack. */
  lemma FormatInnerStarts(g: Goroutine, tail: string, q: nat)
    requires HeaderOk(g) && (tail == "" || tail == "\n")
    requires 1 <= q < |Format(g) + tail|
    ensures var cut := |Format(g)| - |g.stack|;
            Starts(Format(g) + tail, q) <==> cut <= q && Starts(g.stack + tail, q - cut)
  {
    var s, cut := Format(g) + tail, |Format(g)| - |g.stack|;
    var line := HeaderLine(g);
    assert s == (line + "\n") + (g.stack + tail);
    assert s[cut..] == g.stack + tail;
    if q < cut {
      StartsInPrefix(line + "\n", g.stack + tail, q);
      NoStartWithTail(line, "\n", 1);
    } else if q == cut {
      assert s[q - 1] == '\n';
      if q + |HEAD| < |s| {
        assert s[q..q + |HEAD|] == s[cut..][0..|HEAD|];
      }
    } else {
      StartsInSuffix(s, cut, q - cut);
    }
  }

  /** A newline after the stack starts nothing. */
  lemma NoStartWithTail(text: string, tail: string, from: nat)
    requires tail == "" || tail == "\n"
    ensures NoStartFrom(text + tail, from) <==> NoStartFrom(text, from)
  {
    if tail == "" {
      assert text + tail == text;
    } else {
      var s := text + "\n";
      forall q | 0 <= q < |text|
        ensures Starts(s, q) <==> Starts(text, q)
      {
        if q + |HEAD| < |text| {
          assert s[q..q + |HEAD|] == text[q..q + |HEAD|];
        }
      }
    }
  }

  lemma FormatFirstStart(g: Goroutine, tail: string)
    requires HeaderOk(g) && (tail == "" || tail == "\n")
    ensures NextStart(Format(g) + tail, 1) == |Format(g) + tail| <==> NoStartFrom(g.stack, 0)
  {
    var s, cut := Format(g) + tail, |Format(g)| - |g.stack|;
    NoStartWithTail(g.stack, tail, 0);
    NextStartIs(s, 1);
    var q := NextStart(s, 1);
    if q < |s| {
      FormatInnerStarts(g, tail, q);
    } else if p :| 0 <= p < |g.stack + tail| && Starts(g.stack + tail, p) {
      FormatInnerStarts(g, tail, cut + p);
    }
  }

  /** One printed goroutine is one part exactly when no line of its stack looks like another. */
  lemma FormatIsOnePart(g: Goroutine, tail: string)
    requires HeaderOk(g) && (tail == "" || tail == "\n")
    ensures NoStartFrom(g.stack, 0) ==> Parts(Format(g) + tail) == [Format(g) + tail]
    ensures !NoStartFrom(g.stack, 0) ==> |Parts(Format(g) + tail)| >= 2
  {
    FormatFirstStart(g, tail);
  }

  // ----- The round trip -------------------------------------------------------------------------

  lemma {:induction false} ParsePartsConcat(a: seq<string>, b: seq<string>)
    ensures ParseParts(a + b) == ParseParts(a) + ParseParts(b)
    decreases |a|
  {
    if a == [] {
      assert a + b == b;
    } else {
      assert (a + b)[1..] == a[1..] + b;
      ParsePartsConcat(a[1..], b);
    }
  }

  lemma {:induction false} NothingFiltered(parts: seq<string>)
    requires forall k :: 0 <= k < |parts| ==> parts[k] != "" && parts[k][0] == 'g'
    ensures |ParseParts(parts)| == |parts|
    ensures forall k :: 0 <= k < |parts| ==> ParseParts(parts)[k] == ParsePart(parts[k])
    decreases |parts|
  {
    if parts != [] {
      TrimOfWord(parts[0]);
      NothingFiltered(parts[1..]);
    }
  }

  lemma TrimOfWord(s: string)
    requires s != "" && s[0] == 'g'
    ensures Trim(s) != ""
  {
    if Trim(s) == "" {
      TrimEndNonEmpty(s);
    }
  }

  lemma {:induction false} TrimEndNonEmpty(s: string)
    requires s != "" && !IsSpace(s[0])
    ensures TrimEnd(s) != ""
    decreases |s|
  {
    if IsSpace(s[|s| - 1]) {
      TrimEndNonEmpty(s[..|s| - 1]);
    }
  }

  lemma PrintCons(gs: seq<Goroutine>)
    requires |gs| >= 1
    ensures Print(gs) == Format(gs[0]) + if |gs| == 1 then "" else "\n" + Print(gs[1..])
  {
    if |gs| > 1 {
      assert Formats(gs)[1..] == Formats(gs[1..]);
    }
  }

  lemma PrintStarts(gs: seq<Goroutine>)
    requires |gs| >= 1 && HeaderOk(gs[0])
    ensures Starts(Print(gs), 0)
  {
    PrintCons(gs);
    FormatStarts(gs[0], if |gs| == 1 then "" else "\n" + Print(gs[1..]));
  }

  lemma ParseConcat(a: string, b: string)
    requires a != "" && a[|a| - 1] == '\n' && Starts(b, 0)
    ensures ParseGoroutines(a + b) == ParseGoroutines(a) + ParseGoroutines(b)
  {
    PartsConcat(a, b);
    ParsePartsConcat(Parts(a), Parts(b));
  }

  lemma ParseNothing()
    ensures Print([]) == "" && ParseGoroutines("") == []
  {
    assert Parts("") == [""];
  }

  lemma {:induction false} ParseAfterLine(text: string, rest: string)
    requires Starts(rest, 0)
    ensures ParseGoroutines(text + ("\n" + rest)) == ParseGoroutines(text + "\n") + ParseGoroutines(rest)
  {
    assert text + ("\n" + rest) == (text + "\n") + rest;
    ParseConcat(text + "\n", rest);
  }

  /** The parse of a printed list is the parse of its first goroutine, then that of the rest. */
  lemma {:induction false} ParsePrintCons(gs: seq<Goroutine>)
    requires |gs| >= 1 && forall k :: 0 <= k < |gs| ==> HeaderOk(gs[k])
    ensures var tail := if |gs| == 1 then "" else "\n";
            ParseGoroutines(Print(gs)) == ParseGoroutines(Format(gs[0]) + tail) + ParseGoroutines(Print(gs[1..]))
  {
    PrintCons(gs);
    var rest := gs[1..];
    if rest == [] {
      ParseNothing();
      assert Format(gs[0]) + "" == Format(gs[0]);
    } else {
      PrintStarts(rest);
      ParseAfterLine(Format(gs[0]), Print(rest));
    }
  }

  lemma ParseOne(g: Goroutine, tail: string)
    requires HeaderOk(g) && (tail == "" || tail == "\n")
    ensures |ParseGoroutines(Format(g) + tail)| >= 1
    ensures StackOk(g) ==> ParseGoroutines(Format(g) + tail) == [g]
    ensures !NoStartFrom(g.stack, 0) ==> |ParseGoroutines(Format(g) + tail)| >= 2
  {
    var s := Format(g) + tail;
    FormatStarts(g, tail);
    PartsStart(s);
    NothingFiltered(Parts(s));
    FormatIsOnePart(g, tail);
    if StackOk(g) {
      ParseFormat(g, tail);
      assert g.stack + "" == g.stack;
      TrimKeeps(g.stack);
      assert Parts(s)[1..] == [];
    }
  }

  /** What one goroutine adds to the parse of a printed list. */
  lemma {:induction false} ParsePrintOne(gs: seq<Goroutine>)
    requires |gs| >= 1 && forall k :: 0 <= k < |gs| ==> HeaderOk(gs[k])
    ensures var all, rest := ParseGoroutines(Print(gs)), ParseGoroutines(Print(gs[1..]));
            && |all| >= 1 + |rest| && (StackOk(gs[0]) ==> all == [gs[0]] + rest)
            && (!NoStartFrom(gs[0].stack, 0) ==> |all| >= 2 + |rest|)
  {
    ParsePrintCons(gs);
    ParseOne(gs[0], if |gs| == 1 then "" else "\n");
  }

  /** Printing then parsing gives back any list of well-formed goroutines. */
  lemma {:induction false} ParsePrint(gs: seq<Goroutine>)
    requires forall k :: 0 <= k < |gs| ==> HeaderOk(gs[k]) && StackOk(gs[k])
    ensures ParseGoroutines(Print(gs)) == gs
    decreases |gs|
  {
    if gs == [] {
      ParseNothing();
    } else {
      ParsePrintOne(gs);
      ParsePrint(gs[1..]);
    }
  }

  lemma {:induction false} RestOk(gs: seq<Goroutine>)
    requires |gs| >= 1 && forall k :: 0 <= k < |gs| ==> HeaderOk(gs[k])
    ensures forall k :: 0 <= k < |gs[1..]| ==> HeaderOk(gs[1..][k])
  {
    forall k | 0 <= k < |gs[1..]|
      ensures HeaderOk(gs[1..][k])
    {
      assert gs[1..][k] == gs[k + 1];
    }
  }

  /** How many stacks have a line that looks like a goroutine. */
  function LookAlikes(gs: seq<Goroutine>): nat {
    if gs == [] then 0 else (if NoStartFrom(gs[0].stack, 0) then 0 else 1) + LookAlikes(gs[1..])
  }

  /** Each stack with a line that looks like a goroutine yields extra goroutines. */
  lemma {:induction false} ParsePrintLength(gs: seq<Goroutine>)
    requires forall k :: 0 <= k < |gs| ==> HeaderOk(gs[k])
    ensures |ParseGoroutines(Print(gs))| >= |gs| + LookAlikes(gs)
    decreases |gs|
  {
    if gs != [] {
      ParsePrintOne(gs);
      RestOk(gs);
      ParsePrintLength(gs[1..]);
    }
  }

  lemma {:induction false} ParsedStacksTrimmed(parts: seq<string>)
    ensures forall k :: 0 <= k < |ParseParts(parts)| ==> Trimmed(ParseParts(parts)[k].stack)
    decreases |parts|
  {
    if parts != [] {
      TrimIsTrimmed(parts[0]);
      TrimIsTrimmed(Join(Split(parts[0], '\n')[1..], '\n'));
      ParsedStacksTrimmed(parts[1..]);
    }
  }

  // ----- No other list survives the round trip ------------------------------------------------

  /** How many goroutines start at `from` or after it. */
  function Count(s: string, from: nat): nat
    decreases |s| - from
  {
    if from >= |s| then 0 else (if Starts(s, from) then 1 else 0) + Count(s, from + 1)
  }

  lemma {:induction false} CountSkips(s: string, from: nat, q: nat)
    requires from <= q <= |s| && forall p :: from <= p < q ==> !Starts(s, p)
    ensures Count(s, from) == Count(s, q)
    decreases q - from
  {
    if from < q {
      CountSkips(s, from + 1, q);
    }
  }

  lemma {:induction false} CountShift(s: string, cut: nat, q: nat)
    requires cut < |s| && 1 <= q <= |s| - cut
    ensures Count(s[cut..], q) == Count(s, cut + q)
    decreases |s| - q
  {
    if q < |s| - cut {
      StartsInSuffix(s, cut, q);
      CountShift(s, cut, q + 1);
    }
  }

  lemma {:induction false} CountPositive(s: string, from: nat, q: nat)
    requires from <= q < |s| && Starts(s, q)
    ensures Count(s, from) >= 1
    decreases q - from
  {
    if from < q {
      CountPositive(s, from + 1, q);
    }
  }

  lemma {:induction false} PartsCount(s: string)
    requires s != ""
    ensures |Parts(s)| == 1 + Count(s, 1)
    decreases |s|
  {
    var q := NextStart(s, 1);
    NextStartIs(s, 1);
    CountSkips(s, 1, q);
    if q < |s| {
      PartsCount(s[q..]);
      CountShift(s, q, 1);
    }
  }

  lemma {:induction false} CountConcat(a: string, b: string, from: nat)
    requires a != "" && a[|a| - 1] == '\n' && from <= |a|
    ensures Count(a + b, from) == Count(a, from) + Count(b, 0)
    decreases |a| - from
  {
    if from < |a| {
      StartsInPrefix(a, b, from);
      CountConcat(a, b, from + 1);
    } else if b != "" {
      var s := a + b;
      assert s[|a|..] == b;
      if |HEAD| < |b| {
        assert s[|a|..|a| + |HEAD|] == b[0..|HEAD|];
      }
      CountShift(s, |a|, 1);
    }
  }

  ghost predicate HasStart(s: string) {
    exists q :: 0 <= q < |s| && Starts(s, q)
  }

  /** A start stays one in longer text, if it still begins a line. */
  lemma {:induction false} StartsWithin(before: string, s: string, after: string, q: nat)
    requires q < |s| && Starts(s, q)
    requires q == 0 && before != "" ==> IsLineTerminator(before[|before| - 1])
    ensures Starts(before + s + after, |before| + q)
  {
    var t := before + s + after;
    assert t[|before| + q..|before| + q + |HEAD|] == s[q..q + |HEAD|];
    assert q > 0 ==> t[|before| + q - 1] == s[q - 1];
  }

  lemma {:induction false} CountHasStart(s: string, tail: string)
    requires HasStart(s)
    ensures Count(s + tail, 0) >= 1
  {
    var q :| 0 <= q < |s| && Starts(s, q);
    StartsWithin("", s, tail, q);
    assert "" + s + tail == s + tail;
    CountPositive(s + tail, 0, q);
  }

  lemma {:induction false} JoinCount(texts: seq<string>)
    requires forall k :: 0 <= k < |texts| ==> HasStart(texts[k])
    ensures Count(Join(texts, '\n'), 0) >= |texts|
    decreases |texts|
  {
    if |texts| == 1 {
      CountHasStart(texts[0], "");
      assert texts[0] + "" == texts[0];
    } else if |texts| > 1 {
      CountHasStart(texts[0], "\n");
      CountConcat(texts[0] + "\n", Join(texts[1..], '\n'), 0);
      JoinCount(texts[1..]);
    }
  }

  /** What a part with a start is read as prints with one. */
  lemma {:induction false} ParsedHasStart(part: string)
    requires Starts(part, 0)
    ensures HasStart(Format(ParsePart(part)))
  {
    var g := ParsePart(part);
    match Header(part)
    case Some((id, _)) =>
      assert part[|HEAD|] == id[0];
      assert Format(g)[0..|HEAD|] == HEAD && Format(g)[|HEAD|] == id[0];
      assert Starts(Format(g), 0);
    case None =>
      assert part[0] == part[0..|HEAD|][0];
      TrimEndKeeps(part, |HEAD|);
      TrimEndShape(part);
      assert g.stack[0..|HEAD|] == part[0..|HEAD|];
      StartsWithin(HeaderLine(g) + "\n", g.stack, "", 0);
      assert Format(g) == HeaderLine(g) + "\n" + g.stack + "";
      assert Starts(Format(g), |HeaderLine(g) + "\n"|);
  }

  /** A trimmed text inside more than blanks is not what trimming leaves. */
  lemma {:induction false} AroundIsLonger(before: string, text: string, after: string, i: nat)
    requires Trimmed(text) && i < |before + after| && !IsSpace((before + after)[i])
    ensures |Trim(before + text + after)| > |text|
  {
    var s := before + text + after;
    var p := if i < |before| then i else i + |text|;
    assert s[p] == (before + after)[i];
    if text == "" {
      TrimSpan(s, p, p);
    } else {
      assert s[|before|] == text[0] && s[|before| + |text| - 1] == text[|text| - 1];
      TrimSpan(s, if p < |before| then p else |before|, if p < |before| then |before| + |text| - 1 else p);
    }
  }

  lemma {:induction false} NoBracketRead(g: Goroutine, info: string)
    requires Read(info) == (g.state, g.duration) && ']' !in info && info != ""
    ensures ']' !in Info(g) && Info(g) != ""
  {
    if StateAndDuration(info, 0).Some? {
      FoundAtFirst(info, 0);
    }
  }

  /** The header of a text that begins with a printed one is that one, if it reads as the same id and
      the printed brackets hold no other. */
  lemma {:induction false} HeaderUnique(id: string, info: string, rest: string, found: string)
    requires Header(HEAD + id + " [" + info + "]:" + rest) == Some((id, found)) && ']' !in info && info != ""
    ensures found == info && id != "" && forall k :: 0 <= k < |id| ==> IsDigit(id[k])
  {
    var part := HEAD + id + " [" + info + "]:" + rest;
    RunEndWithin(part, |HEAD|, IsDigit);
    assert forall k :: 0 <= k < |id| ==> id[k] == part[|HEAD| + k];
    HeaderFound(id, info, rest);
  }

  lemma {:induction false} FormatThen(g: Goroutine, after: string)
    ensures Format(g) + after == HeaderLine(g) + ("\n" + g.stack + after)
  {}

  lemma {:induction false} HeaderThere(g: Goroutine, after: string)
    requires ParsePart(Format(g) + after).stack == g.stack && Trimmed(g.stack)
    ensures Header(Format(g) + after).Some?
  {
    var line := HeaderLine(g) + "\n";
    if Header(Format(g) + after).None? {
      assert !IsSpace((line + after)[0]);
      AroundIsLonger(line, g.stack, after, 0);
    }
  }

  /** What was read came from brackets without another one. */
  lemma {:induction false} BracketsReadBack(g: Goroutine, part: string)
    requires ParsePart(part) == g && Header(part).Some?
    ensures ']' !in Info(g) && Info(g) != "" && Header(part).value.0 == g.id
    ensures Read(Header(part).value.1) == (g.state, g.duration)
  {
    var info := Header(part).value.1;
    IndexOfIs(part, ']', |HEAD| + |g.id| + 2);
    assert ']' !in info;
    NoBracketRead(g, info);
  }

  /** A goroutine read from text that begins with its own print has an id and a bracketed text that
      are read back. */
  lemma {:induction false} HeaderReadBack(g: Goroutine, after: string)
    requires ParsePart(Format(g) + after) == g && Trimmed(g.stack)
    ensures g.id != "" && (forall k :: 0 <= k < |g.id| ==> IsDigit(g.id[k]))
    ensures InfoOk(g) && ']' !in Info(g) && Info(g) != ""
  {
    var part := Format(g) + after;
    HeaderThere(g, after);
    BracketsReadBack(g, part);
    FormatThen(g, after);
    HeaderUnique(g.id, Info(g), "\n" + g.stack + after, Header(part).value.1);
    ReadIff(g);
  }

  lemma {:induction false} AfterFirstLine(s: string, i: nat)
    requires IndexOf(s, '\n', 0) == i < |s|
    ensures Join(Split(s, '\n')[1..], '\n') == s[i + 1..]
  {
    JoinSplit(s[i + 1..], '\n');
  }

  lemma {:induction false} CutInLine(line: string, stack: string, after: string, i: nat)
    requires i <= |line|
    ensures (line + "\n" + stack + after)[i + 1..] == (line + "\n")[i + 1..] + stack + after
  {}

  /** If what follows the first line trims to the stack, the header is that line, and only blanks
      are behind the stack. */
  lemma {:induction false} FirstLineIsHeader(line: string, stack: string, after: string)
    requires |line| >= 2 && line[|line| - 2..] == "]:" && Trimmed(stack)
    requires Trim(Join(Split(line + "\n" + stack + after, '\n')[1..], '\n')) == stack
    ensures '\n' !in line && forall k :: 0 <= k < |after| ==> IsSpace(after[k])
  {
    var s := line + "\n" + stack + after;
    var i := IndexOf(s, '\n', 0);
    IndexOfIs(s, '\n', 0);
    assert s[|line|] == '\n' && forall k :: 0 <= k < |line| ==> s[k] == line[k];
    AfterFirstLine(s, i);
    var before := (line + "\n")[i + 1..];
    CutInLine(line, stack, after, i);
    if i < |line| {
      assert line[|line| - 2] == line[|line| - 2..][0] && line[|line| - 1] == line[|line| - 2..][1];
      assert (before + after)[|before| - 3] == line[|line| - 2];
      AroundIsLonger(before, stack, after, |before| - 3);
    } else if k :| 0 <= k < |after| && !IsSpace(after[k]) {
      AroundIsLonger(before, stack, after, k);
    }
  }

  lemma {:induction false} StackReadBack(g: Goroutine, after: string)
    requires ParsePart(Format(g) + after) == g && Trimmed(g.stack)
    ensures '\n' !in Info(g) && forall k :: 0 <= k < |after| ==> IsSpace(after[k])
  {
    var line, info := HeaderLine(g), Info(g);
    HeaderReadBack(g, after);
    HeaderFound(g.id, info, "\n" + g.stack + after);
    FormatThen(g, after);
    FirstLineIsHeader(line, g.stack, after);
    assert forall k :: 0 <= k < |info| ==> info[k] == line[|HEAD| + |g.id| + 2 + k];
  }

  lemma {:induction false} NoStartInside(line: string, stack: string, tail: string)
    requires NoStartFrom(line + "\n" + stack + tail, 1)
    ensures NoStartFrom(line, 1) && NoStartFrom(stack, 0)
  {
    if q :| 1 <= q < |line| && Starts(line, q) {
      assert "" + line + ("\n" + stack + tail) == line + "\n" + stack + tail;
      StartsWithin("", line, "\n" + stack + tail, q);
    }
    if q :| 0 <= q < |stack| && Starts(stack, q) {
      StartsWithin(line + "\n", stack, tail, q);
    }
  }

  lemma {:induction false} NoneCounted(s: string)
    requires Count(s, 1) == 0
    ensures NoStartFrom(s, 1)
  {
    if q :| 1 <= q < |s| && Starts(s, q) {
      CountPositive(s, 1, q);
    }
  }

  lemma {:induction false} PartsBegin(text: string)
    requires text != "" && text[0] == 'g'
    ensures forall k :: 0 <= k < |Parts(text)| ==> Parts(text)[k] != "" && Parts(text)[k][0] == 'g'
    ensures forall k :: 1 <= k < |Parts(text)| ==> Starts(Parts(text)[k], 0)
    ensures Parts(text)[0] == text[..NextStart(text, 1)]
  {
    var q := NextStart(text, 1);
    if q < |text| {
      assert text[q..][0..|HEAD|] == text[q..q + |HEAD|];
      PartsStart(text[q..]);
    }
    assert text[..q][0] == 'g';
    forall k | 1 <= k < |Parts(text)|
      ensures Starts(Parts(text)[k], 0) && Parts(text)[k][0] == 'g'
    {
      var part := Parts(text[q..])[k - 1];
      assert part[0] == part[0..|HEAD|][0];
    }
  }

  /** The parts of a round trip are as many as its goroutines, and each is read as its own. */
  lemma {:induction false} PartsReadBack(gs: seq<Goroutine>)
    requires gs != [] && ParseGoroutines(Print(gs)) == gs && Print(gs) != "" && Print(gs)[0] == 'g'
    ensures var text := Print(gs);
            && Count(text, 1) == |gs| - 1 && ParsePart(text[..NextStart(text, 1)]) == gs[0]
            && forall k :: 1 <= k < |gs| ==> HasStart(Format(gs[k]))
  {
    var parts := Parts(Print(gs));
    PartsBegin(Print(gs));
    NothingFiltered(parts);
    PartsCount(Print(gs));
    forall k | 1 <= k < |gs|
      ensures HasStart(Format(gs[k]))
    {
      ParsedHasStart(parts[k]);
    }
  }

  lemma {:induction false} AloneReadBack(gs: seq<Goroutine>)
    requires |gs| == 1 && ParseGoroutines(Print(gs)) == gs && Trimmed(gs[0].stack)
    ensures HeaderOk(gs[0]) && StackOk(gs[0])
  {
    var text := Format(gs[0]);
    PrintCons(gs);
    PartsReadBack(gs);
    assert text + "" == text;
    NoneCounted(text);
    assert text[..NextStart(text, 1)] == text;
    HeaderReadBack(gs[0], "");
    StackReadBack(gs[0], "");
    NoStartInside(HeaderLine(gs[0]), gs[0].stack, "");
  }

  lemma {:induction false} NothingBefore(first: string, rest: string)
    requires first != "" && first[|first| - 1] == '\n' && Count(first + rest, 1) <= Count(rest, 0)
    ensures NoStartFrom(first, 1) && NextStart(first + rest, 1) >= |first|
  {
    CountConcat(first, rest, 1);
    NoneCounted(first);
    var q := NextStart(first + rest, 1);
    if q < |first| {
      StartsInPrefix(first, rest, q);
    }
  }

  lemma {:induction false} StartsBehind(first: string, rest: string, q: nat)
    requires rest != "" && rest[0] == 'g' && first != "" && first[|first| - 1] == '\n'
    requires NextStart(first + rest, 1) == q >= |first|
    requires forall k :: 0 <= k < q - |first| ==> IsSpace(rest[k])
    ensures q == |first| && Starts(rest, 0)
  {
    var text := first + rest;
    assert rest == text[|first|..];
    assert rest[0..|HEAD|] == text[q..q + |HEAD|];
  }

  lemma {:induction false} RestCount(gs: seq<Goroutine>)
    requires forall k :: 0 <= k < |gs| ==> HasStart(Format(gs[k]))
    ensures Count(Print(gs), 0) >= |gs|
  {
    JoinCount(Formats(gs));
  }

  lemma {:induction false} TakeBehind(text: string, rest: string, n: nat)
    requires n <= |rest|
    ensures (text + "\n" + rest)[..|text| + 1 + n] == text + ("\n" + rest[..n])
  {}

  lemma {:induction false} PrintMore(gs: seq<Goroutine>)
    requires |gs| > 1
    ensures Print(gs) == Format(gs[0]) + "\n" + Print(gs[1..])
    ensures Print(gs) != "" && Print(gs)[0] == 'g' && Print(gs[1..]) != "" && Print(gs[1..])[0] == 'g'
  {
    PrintCons(gs);
    PrintCons(gs[1..]);
  }

  lemma {:induction false} SecondBegins(g: Goroutine, text: string, rest: string)
    requires text == Format(g) && Trimmed(g.stack) && rest != "" && rest[0] == 'g'
    requires Count(text + "\n" + rest, 1) <= Count(rest, 0)
    requires ParsePart((text + "\n" + rest)[..NextStart(text + "\n" + rest, 1)]) == g
    ensures HeaderOk(g) && StackOk(g) && Starts(rest, 0)
  {
    NothingBefore(text + "\n", rest);
    var n := NextStart(text + "\n" + rest, 1) - |text| - 1;
    TakeBehind(text, rest, n);
    FirstWellFormed(g, "\n" + rest[..n]);
    BlanksBehind(rest, n);
    StartsBehind(text + "\n", rest, |text| + 1 + n);
  }

  /** The first goroutine of a round trip is well formed and the next one begins right behind it. */
  lemma {:induction false} FirstReadBack(gs: seq<Goroutine>)
    requires |gs| > 1 && ParseGoroutines(Print(gs)) == gs && Trimmed(gs[0].stack)
    ensures HeaderOk(gs[0]) && StackOk(gs[0]) && Starts(Print(gs[1..]), 0)
  {
    PrintMore(gs);
    PartsReadBack(gs);
    RestCount(gs[1..]);
    SecondBegins(gs[0], Format(gs[0]), Print(gs[1..]));
  }

  lemma {:induction false} BlanksBehind(rest: string, n: nat)
    requires n <= |rest| && forall k :: 0 <= k < n + 1 ==> IsSpace(("\n" + rest[..n])[k])
    ensures forall k :: 0 <= k < n ==> IsSpace(rest[k])
  {
    assert forall k :: 0 <= k < n ==> rest[k] == ("\n" + rest[..n])[k + 1];
  }

  lemma {:induction false} FirstWellFormed(g: Goroutine, after: string)
    requires ParsePart(Format(g) + after) == g && Trimmed(g.stack) && NoStartFrom(Format(g) + "\n", 1)
    ensures HeaderOk(g) && StackOk(g) && forall k :: 0 <= k < |after| ==> IsSpace(after[k])
  {
    HeaderReadBack(g, after);
    StackReadBack(g, after);
    NoStartInside(HeaderLine(g), g.stack, "\n");
  }

  lemma {:induction false} RestReadBack(gs: seq<Goroutine>)
    requires |gs| > 1 && ParseGoroutines(Print(gs)) == gs
    requires HeaderOk(gs[0]) && StackOk(gs[0]) && Starts(Print(gs[1..]), 0)
    ensures ParseGoroutines(Print(gs[1..])) == gs[1..]
  {
    PrintCons(gs);
    ParseAfterLine(Format(gs[0]), Print(gs[1..]));
    ParseOne(gs[0], "\n");
    assert ([gs[0]] + ParseGoroutines(Print(gs[1..])))[1..] == ParseGoroutines(Print(gs[1..]));
  }

  lemma {:induction false} OnlyWellFormed(gs: seq<Goroutine>, k: nat)
    requires ParseGoroutines(Print(gs)) == gs && k < |gs|
    ensures HeaderOk(gs[k]) && StackOk(gs[k])
    decreases |gs|
  {
    ParsedStacksTrimmed(Parts(Print(gs)));
    if |gs| == 1 {
      AloneReadBack(gs);
    } else {
      FirstReadBack(gs);
      if k > 0 {
        RestReadBack(gs);
        OnlyWellFormed(gs[1..], k - 1);
      }
    }
  }

  /** Of all lists of goroutines, exactly those survive the round trip whose headers are read back
      and whose stacks are trimmed and have no line that looks like another goroutine. */
  lemma {:induction false} ParsePrintIff(gs: seq<Goroutine>)
    ensures ParseGoroutines(Print(gs)) == gs <==> forall k :: 0 <= k < |gs| ==> HeaderOk(gs[k]) && StackOk(gs[k])
  {
    if forall k :: 0 <= k < |gs| ==> HeaderOk(gs[k]) && StackOk(gs[k]) {
      ParsePrint(gs);
    }
    if ParseGoroutines(Print(gs)) == gs {
      forall k | 0 <= k < |gs|
        ensures HeaderOk(gs[k]) && StackOk(gs[k])
      {
        OnlyWellFormed(gs, k);
      }
    }
  }

  /** A text in which no line looks like a goroutine is shown as one unknown goroutine with the trimmed text
      as its stack, or as none if it is blank. */
  lemma {:induction false} TextWithoutGoroutines(text: string)
    requires NoStartFrom(text, 0)
    ensures ParseGoroutines(text) == if Trim(text) == "" then [] else [Goroutine("?", "unknown", None, Trim(text))]
  {
    if text != "" {
      NextStartIs(text, 1);
      assert !Starts(text, 0);
    }
    assert Header(text) == None;
    assert Parts(text) == [text];
    assert [text][1..] == [];
    assert ParseParts([text]) == (if Trim(text) == "" then [] else [ParsePart(text)]) + ParseParts([]);
  }

  lemma TrimDropsIndent(s: string)
    requires Trimmed(s)
    ensures Trim(" " + s) == s
  {
    assert (" " + s)[1..] == s;
    TrimKeeps(s);
  }

  lemma ParseSingle(part: string)
    requires Trim(part) != ""
    ensures ParseParts([part]) == [ParsePart(part)]
  {
    assert [part][1..] == [];
  }

  lemma OnePartParse(g: Goroutine)
    requires HeaderOk(g) && NoStartFrom(g.stack, 0)
    ensures ParseGoroutines(Format(g)) == [g.(stack := Trim(g.stack))]
  {
    var text := Format(g);
    assert text + "" == text && g.stack + "" == g.stack;
    FormatStarts(g, "");
    FormatIsOnePart(g, "");
    ParseFormat(g, "");
    TrimOfWord(text);
    ParseSingle(text);
  }

  /** Trimming can itself create such a line: the dump of an indented stack parses as one
      goroutine whose own copy does not parse back. */
  lemma TrimCreatesAGoroutine(g: Goroutine)
    requires HeaderOk(g) && g.stack == "goroutine 2"
    ensures ParseGoroutines(Format(g.(stack := " " + g.stack))) == [g]
    ensures ParseGoroutines(Print([g])) != [g]
  {
    var indented := g.(stack := " " + g.stack);
    assert indented.stack[0] == ' ' && !IsLineTerminator(' ');
    assert |g.stack| == 11;
    assert Starts(g.stack, 0) by {
      assert g.stack[0..|HEAD|] == HEAD;
    }
    assert NoStartFrom(indented.stack, 0) by {
      assert indented.stack[0..|HEAD|][0] == ' ';
    }
    OnePartParse(indented);
    TrimDropsIndent(g.stack);
    ParsePrintIff([g]);
  }
}
