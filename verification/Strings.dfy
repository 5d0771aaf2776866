/** Splitting, joining and searching strings. */
module Strings {
  /** The first index of `c` in `s` at or after `from`, or |s|. */
  function IndexOf(s: string, c: char, from: nat): (i: nat)
    requires from <= |s|
    ensures from <= i <= |s|
    decreases |s| - from
  {
    if from == |s| || s[from] == c then from else IndexOf(s, c, from + 1)
  }

  lemma {:induction false} IndexOfIs(s: string, c: char, from: nat)
    requires from <= |s|
    ensures forall j :: from <= j < IndexOf(s, c, from) ==> s[j] != c
    ensures IndexOf(s, c, from) < |s| ==> s[IndexOf(s, c, from)] == c
    decreases |s| - from
  {
    if from < |s| && s[from] != c {
      IndexOfIs(s, c, from + 1);
    }
  }

  /** The pieces of `s` between occurrences of `c`; never empty. */
  function Split(s: string, c: char): (parts: seq<string>)
    ensures |parts| >= 1
    decreases |s|
  {
    var i := IndexOf(s, c, 0);
    if i == |s| then [s] else [s[..i]] + Split(s[i + 1..], c)
  }

  function Join(parts: seq<string>, c: char): string {
    if parts == [] then ""
    else if |parts| == 1 then parts[0]
    else parts[0] + [c] + Join(parts[1..], c)
  }

  lemma JoinCons(part: string, rest: seq<string>, c: char)
    requires |rest| >= 1
    ensures Join([part] + rest, c) == part + [c] + Join(rest, c)
  {
    assert ([part] + rest)[1..] == rest;
  }

  lemma {:induction false} CutAt(s: string, i: nat)
    requires i < |s|
    ensures s == s[..i] + [s[i]] + s[i + 1..]
  {}

  lemma {:induction false} JoinSplit(s: string, c: char)
    ensures Join(Split(s, c), c) == s
    decreases |s|
  {
    var i := IndexOf(s, c, 0);
    IndexOfIs(s, c, 0);
    if i < |s| {
      var rest := Split(s[i + 1..], c);
      JoinSplit(s[i + 1..], c);
      JoinCons(s[..i], rest, c);
      CutAt(s, i);
    }
  }

  lemma IndexOfFirst(a: string, c: char, b: string)
    requires c !in a
    ensures IndexOf(a + [c] + b, c, 0) == |a|
  {
    IndexOfIs(a + [c] + b, c, 0);
    assert (a + [c] + b)[|a|] == c;
    assert forall j :: 0 <= j < |a| ==> (a + [c] + b)[j] == a[j] && a[j] != c;
  }

  lemma IndexOfAbsent(s: string, c: char)
    requires c !in s
    ensures IndexOf(s, c, 0) == |s|
  {
    IndexOfIs(s, c, 0);
  }

  lemma {:induction false} SplitJoin(parts: seq<string>, c: char)
    requires |parts| >= 1
    requires forall k :: 0 <= k < |parts| ==> c !in parts[k]
    ensures Split(Join(parts, c), c) == parts
  {
    if |parts| == 1 {
      assert Join(parts, c) == parts[0];
      IndexOfAbsent(parts[0], c);
    } else {
      var rest := Join(parts[1..], c);
      SplitJoin(parts[1..], c);
      IndexOfFirst(parts[0], c, rest);
      assert (parts[0] + [c] + rest)[..|parts[0]|] == parts[0];
      assert (parts[0] + [c] + rest)[|parts[0]| + 1..] == rest;
    }
  }
}
