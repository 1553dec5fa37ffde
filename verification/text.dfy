/** The few `java.lang.String` operations the value objects and the
    registry rely on, at the level of Unicode code points. */
module Text {

  /** `Character.isWhitespace`: the Unicode space, line and paragraph
      separators other than the no-break spaces, plus the ASCII controls
      TAB, LF, VT, FF, CR and FS, GS, RS, US. */
  predicate IsJavaWhitespace(c: char) {
    || ('\t' <= c <= '\r')
    || ('\U{1C}' <= c <= ' ')
    || c == '\U{1680}'
    || ('\U{2000}' <= c <= '\U{2006}')
    || ('\U{2008}' <= c <= '\U{200A}')
    || c == '\U{2028}' || c == '\U{2029}'
    || c == '\U{205F}' || c == '\U{3000}'
  }

  /** `String.isBlank`: every character is whitespace in the sense of
      `Character.isWhitespace` (the empty string is blank). */
  predicate IsBlank(s: string) {
    forall i | 0 <= i < |s| :: IsJavaWhitespace(s[i])
  }

  /** The characters `String.trim` strips: code points up to U+0020. */
  predicate IsTrimmable(c: char) {
    c <= ' '
  }

  /** `String.trim` on the leading side. */
  function TrimStart(s: string): (r: string)
    ensures |r| <= |s| && r == s[|s| - |r|..]
    ensures r == [] || !IsTrimmable(r[0])
    ensures forall i | 0 <= i < |s| - |r| :: IsTrimmable(s[i])
  {
    if s == [] || !IsTrimmable(s[0]) then s else TrimStart(s[1..])
  }

  /** `String.trim` on the trailing side. */
  function TrimEnd(s: string): (r: string)
    ensures |r| <= |s| && r == s[..|r|]
    ensures r == [] || !IsTrimmable(r[|r| - 1])
    ensures forall i | |r| <= i < |s| :: IsTrimmable(s[i])
  {
    if s == [] || !IsTrimmable(s[|s| - 1]) then s else TrimEnd(s[..|s| - 1])
  }

  /** `String.trim`: drop code points up to U+0020 at both ends. */
  function Trim(s: string): (r: string)
  {
    TrimEnd(TrimStart(s))
  }

  /** `s.trim().isEmpty()`, the blank test of every value object except
      Hotel. */
  predicate IsTrimEmpty(s: string) {
    Trim(s) == []
  }

  /** `trim().isEmpty()` holds exactly when every character is trimmable. */
  lemma TrimEmptyIff(s: string)
    ensures IsTrimEmpty(s) <==> forall i | 0 <= i < |s| :: IsTrimmable(s[i])
  {
  }

  /** The two blank tests differ: a NUL is trimmed away but is not
      whitespace, and an em space is whitespace but is not trimmed. */
  lemma BlankTestsDiffer()
    ensures IsTrimEmpty("\U{0}") && !IsBlank("\U{0}")
    ensures IsBlank("\U{2003}") && !IsTrimEmpty("\U{2003}")
  {
    var nul: string := ['\U{0}'];
    var em: string := ['\U{2003}'];
    assert !IsJavaWhitespace(nul[0]);
    assert IsJavaWhitespace(em[0]);
    assert !IsTrimmable(em[0]);
    assert IsTrimmable(nul[0]);
    assert TrimStart(nul) == [] by { assert nul[1..] == []; }
  }

  /** ASCII case folding: 'A'..'Z' become 'a'..'z', everything else stays. */
  function FoldCase(c: char): (r: char)
  {
    if 'A' <= c <= 'Z' then (c as int + 32) as char else c
  }

  /** `String.equalsIgnoreCase` with ASCII folding: equal length and equal
      characters position by position after folding. */
  predicate EqualsIgnoreCase(a: string, b: string) {
    |a| == |b| && forall i | 0 <= i < |a| :: FoldCase(a[i]) == FoldCase(b[i])
  }

  /** The whole string folded to lower case. */
  function ToLower(s: string): (r: string)
    ensures |r| == |s|
    ensures forall i | 0 <= i < |s| :: r[i] == FoldCase(s[i])
  {
    if s == [] then [] else [FoldCase(s[0])] + ToLower(s[1..])
  }

  /** Case-insensitive equality is equality of the lower-cased strings. */
  lemma EqualsIgnoreCaseIffSameLower(a: string, b: string)
    ensures EqualsIgnoreCase(a, b) <==> ToLower(a) == ToLower(b)
  {
  }

  /** Case-insensitive equality is an equivalence relation that includes
      plain equality. */
  lemma EqualsIgnoreCaseIsEquivalence(a: string, b: string, c: string)
    ensures EqualsIgnoreCase(a, a)
    ensures EqualsIgnoreCase(a, b) ==> EqualsIgnoreCase(b, a)
    ensures EqualsIgnoreCase(a, b) && EqualsIgnoreCase(b, c) ==> EqualsIgnoreCase(a, c)
  {
  }

  /** Strings that differ only in the case of ASCII letters match. */
  lemma EqualsIgnoreCaseExample()
    ensures EqualsIgnoreCase("The Grand Budapest", "the GRAND budapest")
    ensures !EqualsIgnoreCase("Ghost Hotel", "The Grand Budapest")
  {
  }

  /** Position of the first `c` in `s`, or `|s|` when there is none. */
  function IndexOf(s: string, c: char): (r: nat)
    ensures r <= |s|
    ensures r < |s| ==> s[r] == c
    ensures forall i | 0 <= i < r :: s[i] != c
  {
    if s == [] || s[0] == c then 0 else 1 + IndexOf(s[1..], c)
  }

  /** Position of the last `c` in `s`, or -1 when there is none. */
  function LastIndexOf(s: string, c: char): (r: int)
    ensures -1 <= r < |s|
    ensures r >= 0 ==> s[r] == c
    ensures forall i | r < i < |s| :: s[i] != c
  {
    if s == [] then -1
    else if s[|s| - 1] == c then |s| - 1
    else LastIndexOf(s[..|s| - 1], c)
  }
}
