/** The character classes of the page's regular expressions. */
module Chars {
  predicate IsLineTerminator(c: char) {
    c == '\n' || c == '\r' || c == '\U{2028}' || c == '\U{2029}'
  }

  /** What `trim` removes and `\s` matches. */
  predicate IsSpace(c: char) {
    || c == ' ' || c == '\t' || c == '\U{0B}' || c == '\U{0C}' || c == '\U{A0}' || c == '\U{1680}'
    || '\U{2000}' <= c <= '\U{200A}' || c == '\U{202F}' || c == '\U{205F}' || c == '\U{3000}' || c == '\U{FEFF}'
    || IsLineTerminator(c)
  }

  predicate IsDigit(c: char) {
    '0' <= c <= '9'
  }

  predicate IsLetter(c: char) {
    'a' <= c <= 'z' || 'A' <= c <= 'Z'
  }

  /** What `\w` matches. */
  predicate IsWord(c: char) {
    IsLetter(c) || IsDigit(c) || c == '_'
  }

  predicate IsPath(c: char) {
    IsWord(c) || c == '.' || c == '/'
  }

  predicate IsHex(c: char) {
    IsDigit(c) || 'a' <= c <= 'f' || 'A' <= c <= 'F'
  }

  predicate OneLine(s: string) {
    forall k :: 0 <= k < |s| ==> !IsLineTerminator(s[k])
  }

  /** The end of the longest run of characters `within` accepts from `from`. */
  function RunEnd(s: string, from: nat, within: char -> bool): (e: nat)
    requires from <= |s|
    ensures from <= e <= |s|
    decreases |s| - from
  {
    if from < |s| && within(s[from]) then RunEnd(s, from + 1, within) else from
  }

  lemma {:induction false} RunEndWithin(s: string, from: nat, within: char -> bool)
    requires from <= |s|
    ensures forall k :: from <= k < RunEnd(s, from, within) ==> within(s[k])
    decreases |s| - from
  {
    if from < |s| && within(s[from]) {
      RunEndWithin(s, from + 1, within);
    }
  }

  lemma {:induction false} RunEndAt(s: string, from: nat, within: char -> bool, e: nat)
    requires from <= e <= |s| && (forall k :: from <= k < e ==> within(s[k])) && (e < |s| ==> !within(s[e]))
    ensures RunEnd(s, from, within) == e
    decreases e - from
  {
    if from < e {
      RunEndAt(s, from + 1, within, e);
    }
  }
}
