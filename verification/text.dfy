/** The two Python string operations the price tables rely on:
    `str.strip()` (applied to every scraped cell) and `str.upper()`
    (used for the case-insensitive state filter). */
module Text {

  /** Python's `str.isspace` on one character: the Unicode characters of
      bidirectional class WS, B or S, or of category Zs. */
  predicate IsSpace(c: char) {
    || c == ' '
    || ('\t' <= c <= '\r')
    || ('\U{1c}' <= c <= '\U{1f}')
    || c == '\U{85}'
    || c == '\U{a0}'
    || c == '\U{1680}'
    || ('\U{2000}' <= c <= '\U{200a}')
    || c == '\U{2028}'
    || c == '\U{2029}'
    || c == '\U{202f}'
    || c == '\U{205f}'
    || c == '\U{3000}'
  }

  /** The first `i` characters of `s` are whitespace. */
  ghost predicate SpaceBefore(s: string, i: nat)
    requires i <= |s|
  {
    forall k :: 0 <= k < i ==> IsSpace(s[k])
  }

  /** The characters of `s` from index `j` on are whitespace. */
  ghost predicate SpaceFrom(s: string, j: nat)
    requires j <= |s|
  {
    forall k :: j <= k < |s| ==> IsSpace(s[k])
  }

  /** `r` is `s` without a leading and a trailing run of whitespace. */
  ghost predicate IsInfixInSpace(s: string, r: string) {
    exists i :: 0 <= i <= |s| - |r| && r == s[i..i + |r|] && SpaceBefore(s, i) && SpaceFrom(s, i + |r|)
  }

  /** The end of the whitespace run of `s` that starts at index `i`. */
  function SkipSpace(s: string, i: nat): (j: nat)
    requires i <= |s|
    ensures i <= j <= |s|
    ensures forall k :: i <= k < j ==> IsSpace(s[k])
    ensures j == |s| || !IsSpace(s[j])
    decreases |s| - i
  {
    if i < |s| && IsSpace(s[i]) then SkipSpace(s, i + 1) else i
  }

  /** The start of the whitespace run of `s` that ends at index `j`,
      searching no further back than `lo`. */
  function BackSpace(s: string, lo: nat, j: nat): (n: nat)
    requires lo <= j <= |s|
    ensures lo <= n <= j
    ensures forall k :: n <= k < j ==> IsSpace(s[k])
    ensures n == lo || !IsSpace(s[n - 1])
  {
    if lo < j && IsSpace(s[j - 1]) then BackSpace(s, lo, j - 1) else j
  }

  /** `s.strip()`: the infix of `s` between its leading and its trailing
      whitespace; it neither starts nor ends with whitespace. */
  function Strip(s: string): (r: string)
    ensures IsInfixInSpace(s, r)
    ensures r == [] || (!IsSpace(r[0]) && !IsSpace(r[|r| - 1]))
  {
    var i := SkipSpace(s, 0);
    var n := BackSpace(s, i, |s|);
    InfixWitness(s, s[i..n], i);
    s[i..n]
  }

  /** Index `i` witnesses that `r` is an infix of `s` in whitespace. */
  lemma InfixWitness(s: string, r: string, i: nat)
    requires i <= |s| - |r| && r == s[i..i + |r|] && SpaceBefore(s, i) && SpaceFrom(s, i + |r|)
    ensures IsInfixInSpace(s, r)
  {
  }

  /** The ASCII part of `str.upper()` on one character. */
  function UpperChar(c: char): (u: char)
    ensures 'a' <= c <= 'z' ==> 'A' <= u <= 'Z' && u as int == c as int - 32
    ensures !('a' <= c <= 'z') ==> u == c
  {
    if 'a' <= c <= 'z' then (c as int - 32) as char else c
  }

  /** `s.upper()`, restricted to ASCII letters. */
  function Upper(s: string): (r: string)
    ensures |r| == |s|
    ensures forall i :: 0 <= i < |s| ==> r[i] == UpperChar(s[i])
    ensures forall i :: 0 <= i < |r| ==> !('a' <= r[i] <= 'z')
  {
    seq(|s|, i requires 0 <= i < |s| => UpperChar(s[i]))
  }
}
