/**
 * Character classes and string helpers with the meaning the Python 2 runtime gives them:
 * `\s` in a regular expression compiled without re.UNICODE, `unicode.strip()`,
 * and case mapping (ASCII letters only).
 */
module Text {

  /** `\s` of Python 2's re module without the UNICODE flag: [ \t\n\r\f\v]. */
  predicate IsReSpace(c: char) {
    c == ' ' || c == '\t' || c == '\n' || c == '\r' || c == '\U{0C}' || c == '\U{0B}'
  }

  /**
   * The characters `unicode.strip()` removes: Python 2's Py_UNICODE_ISSPACE, whose
   * Unicode 4.1-5.2 tables still count U+180E MONGOLIAN VOWEL SEPARATOR as a space.
   */
  predicate IsStrSpace(c: char) {
    IsReSpace(c) || ('\U{1C}' <= c <= '\U{1F}') || c == '\U{85}' || c == '\U{A0}'
    || c == '\U{1680}' || c == '\U{180E}' || ('\U{2000}' <= c <= '\U{200A}') || c == '\U{2028}' || c == '\U{2029}'
    || c == '\U{202F}' || c == '\U{205F}' || c == '\U{3000}'
  }

  predicate IsDigit(c: char) { '0' <= c <= '9' }

  predicate IsHexDigit(c: char) { IsDigit(c) || 'a' <= c <= 'f' || 'A' <= c <= 'F' }

  predicate IsUpperAscii(c: char) { 'A' <= c <= 'Z' }

  predicate IsLowerAscii(c: char) { 'a' <= c <= 'z' }

  /** No element occurs twice. */
  predicate NoRepeats<T(==)>(s: seq<T>) {
    forall i, j :: 0 <= i < j < |s| ==> s[i] != s[j]
  }

  predicate StartsWith(s: string, prefix: string) {
    |prefix| <= |s| && s[..|prefix|] == prefix
  }

  function LowerChar(c: char): (r: char)
    ensures !IsUpperAscii(r)
    ensures IsUpperAscii(c) || r == c
  {
    if IsUpperAscii(c) then (c as int + 32) as char else c
  }

  function UpperChar(c: char): (r: char)
    ensures !IsLowerAscii(r)
    ensures IsLowerAscii(c) || r == c
  {
    if IsLowerAscii(c) then (c as int - 32) as char else c
  }

  /** `s.lower()` restricted to ASCII letters. */
  function Lower(s: string): (r: string)
    ensures |r| == |s|
    ensures forall i :: 0 <= i < |s| ==> r[i] == LowerChar(s[i])
  {
    seq(|s|, i requires 0 <= i < |s| => LowerChar(s[i]))
  }

  /** `s.upper()` restricted to ASCII letters. */
  function Upper(s: string): (r: string)
    ensures |r| == |s|
    ensures forall i :: 0 <= i < |s| ==> r[i] == UpperChar(s[i])
  {
    seq(|s|, i requires 0 <= i < |s| => UpperChar(s[i]))
  }

  lemma LowerIdempotent(s: string)
    ensures Lower(Lower(s)) == Lower(s)
  {
  }

  /** Two strings are equal ignoring ASCII case (re.IGNORECASE on a byte pattern). */
  predicate EqualsIgnoringCase(a: string, b: string) {
    Lower(a) == Lower(b)
  }

  /** `s.lstrip()`. */
  function StripLeft(s: string): (r: string)
    ensures |r| <= |s| && r == s[|s| - |r|..]
    ensures r == [] || !IsStrSpace(r[0])
    ensures forall i :: 0 <= i < |s| - |r| ==> IsStrSpace(s[i])
  {
    if s != [] && IsStrSpace(s[0]) then StripLeft(s[1..]) else s
  }

  /** `s.rstrip()`. */
  function StripRight(s: string): (r: string)
    ensures |r| <= |s| && r == s[..|r|]
    ensures r == [] || !IsStrSpace(r[|r| - 1])
    ensures forall i :: |r| <= i < |s| ==> IsStrSpace(s[i])
  {
    if s != [] && IsStrSpace(s[|s| - 1]) then StripRight(s[..|s| - 1]) else s
  }

  /** `s.strip()`: no leading or trailing whitespace is left, and only whitespace is removed. */
  function Strip(s: string): (r: string)
    ensures r == [] || (!IsStrSpace(r[0]) && !IsStrSpace(r[|r| - 1]))
    ensures |r| <= |s|
    ensures s == [] || !IsStrSpace(s[0]) ==> StartsWith(s, r)
  {
    StripRight(StripLeft(s))
  }
}
