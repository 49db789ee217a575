/**
 The string operations the workflow controller relies on: JavaScript's
 `String.prototype.trim()` and the truthiness test `!s.trim()`, which holds
 exactly when `s` is made of whitespace only.
 */
module Text {

  /** The characters `trim()` removes: ECMAScript WhiteSpace (TAB, VT, FF, SP,
      NBSP, ZWNBSP and the Unicode space separators) and LineTerminator
      (LF, CR, LS, PS). */
  predicate IsWhitespace(c: char) {
    c == '\t' || c == '\U{000B}' || c == '\U{000C}' || c == ' ' ||
    c == '\n' || c == '\r' || c == '\U{2028}' || c == '\U{2029}' ||
    c == '\U{00A0}' || c == '\U{FEFF}' || c == '\U{1680}' ||
    ('\U{2000}' <= c <= '\U{200A}') ||
    c == '\U{202F}' || c == '\U{205F}' || c == '\U{3000}'
  }

  /** Every character of `s` is whitespace; the empty string is blank. */
  predicate IsBlank(s: string) {
    forall i :: 0 <= i < |s| ==> IsWhitespace(s[i])
  }

  /** A non-empty string with no whitespace at either end. */
  predicate IsTrimmed(s: string) {
    s != [] && !IsWhitespace(s[0]) && !IsWhitespace(s[|s| - 1])
  }

  /** The number of whitespace characters `s` starts with: all of them are
      whitespace, and the character after them (if any) is not. */
  function LeadingWhitespace(s: string): (k: nat)
    ensures k <= |s|
    ensures forall i :: 0 <= i < k ==> IsWhitespace(s[i])
    ensures k < |s| ==> !IsWhitespace(s[k])
  {
    if s != [] && IsWhitespace(s[0]) then
      var k := 1 + LeadingWhitespace(s[1..]);
      assert forall i :: 1 <= i < k ==> s[i] == s[1..][i - 1];
      assert k < |s| ==> s[k] == s[1..][k - 1];
      k
    else
      0
  }

  /** The length of `s` without its trailing whitespace: everything from there
      on is whitespace, and the character before (if any) is not. */
  function ContentEnd(s: string): (j: nat)
    ensures j <= |s|
    ensures forall i :: j <= i < |s| ==> IsWhitespace(s[i])
    ensures j > 0 ==> !IsWhitespace(s[j - 1])
  {
    if s != [] && IsWhitespace(s[|s| - 1]) then
      var j := ContentEnd(s[..|s| - 1]);
      assert forall i :: j <= i < |s| - 1 ==> s[i] == s[..|s| - 1][i];
      assert j > 0 ==> s[j - 1] == s[..|s| - 1][j - 1];
      j
    else
      |s|
  }

  /** JavaScript's `s.trim()`: whitespace removed at both ends. What is left is
      empty or neither starts nor ends with whitespace. */
  function Trim(s: string): (r: string)
    ensures |r| <= |s|
    ensures r == [] || IsTrimmed(r)
  {
    var i := LeadingWhitespace(s);
    if i == |s| then
      []
    else
      var j := ContentEnd(s);
      assert i < j;
      s[i..j]
  }

  /** Reference characterization of `trim()`: whenever `s` is split into a
      blank prefix, a middle part that neither starts nor ends with whitespace,
      and a blank suffix, the middle part is `Trim(s)`. */
  lemma TrimIsMiddle(s: string, i: nat, j: nat)
    requires i <= j <= |s|
    requires forall k :: 0 <= k < i ==> IsWhitespace(s[k])
    requires forall k :: j <= k < |s| ==> IsWhitespace(s[k])
    requires i < j ==> !IsWhitespace(s[i]) && !IsWhitespace(s[j - 1])
    ensures Trim(s) == s[i..j]
  {
    var lead, end := LeadingWhitespace(s), ContentEnd(s);
    if i < j {
      assert lead == i && end == j;
    } else {
      assert lead == |s|;
    }
  }

  /** `!s.trim()` in JavaScript: the trimmed string is empty exactly when the
      string is blank. */
  lemma TrimEmptyIffBlank(s: string)
    ensures Trim(s) == [] <==> IsBlank(s)
  {
    var lead := LeadingWhitespace(s);
    if lead < |s| {
      assert !IsWhitespace(s[lead]) && |Trim(s)| > 0;
    }
  }

  /** Trimming a trimmed string changes nothing. */
  lemma TrimIdempotent(s: string)
    ensures Trim(Trim(s)) == Trim(s)
  {
    var r := Trim(s);
    assert r[0..|r|] == r;
    TrimIsMiddle(r, 0, |r|);
  }

  /** The non-empty strings that `trim()` leaves as they are are exactly the
      trimmed ones. */
  lemma TrimmedIffFixed(s: string)
    ensures IsTrimmed(s) <==> s != [] && Trim(s) == s
  {
    if IsTrimmed(s) {
      assert s[0..|s|] == s;
      TrimIsMiddle(s, 0, |s|);
    }
  }

  /** The test `!s.trim()` as a handler evaluates it: true exactly when `s`
      is blank. */
  method TrimsToEmpty(s: string) returns (b: bool)
    ensures b <==> IsBlank(s)
  {
    TrimEmptyIffBlank(s);
    b := Trim(s) == "";
  }
}
