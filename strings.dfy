/** The JavaScript string operations the schema and the validators rely on:
    `String.prototype.trim` (Mongoose `trim: true`), lower-casing (Mongoose
    `lowercase: true`), the character-class tests of the password rules and
    the length that validator.js `isLength` measures. A Dafny `char` is a
    Unicode scalar value, so a `string` here is a sequence of code points. */
module Strings {

  /** The characters JavaScript's `trim` removes: WhiteSpace and LineTerminator
      of the ECMAScript grammar (tab, VT, FF, space, NBSP, ZWNBSP, the Zs
      category, LF, CR, LS, PS). */
  predicate IsJsWhitespace(c: char) {
    c == '\t' || c == '\n' || c == '\U{B}' || c == '\U{C}' || c == '\r' || c == ' '
    || c == '\U{A0}' || c == '\U{1680}' || ('\U{2000}' <= c <= '\U{200A}')
    || c == '\U{2028}' || c == '\U{2029}' || c == '\U{202F}' || c == '\U{205F}'
    || c == '\U{3000}' || c == '\U{FEFF}'
  }

  predicate IsAsciiUpper(c: char) { 'A' <= c <= 'Z' }

  predicate IsAsciiDigit(c: char) { '0' <= c <= '9' }

  /** Lower-cases one ASCII letter; every other character is kept. */
  function LowerChar(c: char): (d: char)
    ensures !IsAsciiUpper(d)
    ensures !IsAsciiUpper(c) ==> d == c
    ensures IsAsciiUpper(c) ==> d as int == c as int + 32
  {
    if IsAsciiUpper(c) then (c as int - 'A' as int + 'a' as int) as char else c
  }

  /** No ASCII capital letter anywhere in `s`. */
  predicate IsLowerCase(s: string) {
    forall i :: 0 <= i < |s| ==> !IsAsciiUpper(s[i])
  }

  /** `s` lower-cased character by character. */
  function Lower(s: string): (r: string)
    ensures |r| == |s|
    ensures forall i :: 0 <= i < |s| ==> r[i] == (if IsAsciiUpper(s[i]) then (s[i] as int + 32) as char else s[i])
    ensures IsLowerCase(r)
    ensures IsLowerCase(s) ==> r == s
    ensures r == [] <==> s == []
  {
    seq(|s|, i requires 0 <= i < |s| => LowerChar(s[i]))
  }

  /** `a` and `b` are the same string except that, at some positions, one
      holds an ASCII capital where the other holds the same letter in lower
      case. */
  predicate EqualUpToAsciiCase(a: string, b: string) {
    |a| == |b| && forall i :: 0 <= i < |a| ==> LowerChar(a[i]) == LowerChar(b[i])
  }

  /** Two emails that differ only in ASCII case lower-case to the same string,
      so the schema's `lowercase` setter makes them collide. */
  lemma LowerIgnoresAsciiCase(a: string, b: string)
    requires EqualUpToAsciiCase(a, b)
    ensures Lower(a) == Lower(b)
  {
    forall i | 0 <= i < |a|
      ensures Lower(a)[i] == Lower(b)[i]
    {
      assert Lower(a)[i] == LowerChar(a[i]);
    }
  }

  /** Number of whitespace characters at the front of `s`. */
  function LeadingSpace(s: string): (n: nat)
    ensures n <= |s|
    ensures forall k :: 0 <= k < n ==> IsJsWhitespace(s[k])
    ensures n < |s| ==> !IsJsWhitespace(s[n])
  {
    if s != [] && IsJsWhitespace(s[0]) then 1 + LeadingSpace(s[1..]) else 0
  }

  /** Number of whitespace characters at the back of `s`. */
  function TrailingSpace(s: string): (n: nat)
    ensures n <= |s|
    ensures forall k :: |s| - n <= k < |s| ==> IsJsWhitespace(s[k])
    ensures n < |s| ==> !IsJsWhitespace(s[|s| - 1 - n])
  {
    if s != [] && IsJsWhitespace(s[|s| - 1]) then 1 + TrailingSpace(s[..|s| - 1]) else 0
  }

  /** Neither end of `s` is whitespace. */
  predicate IsTrimmed(s: string) {
    s == [] || (!IsJsWhitespace(s[0]) && !IsJsWhitespace(s[|s| - 1]))
  }

  /** JavaScript's `trim`: `s` without its leading and trailing whitespace. */
  function Trim(s: string): (r: string)
    ensures exists i, j ::
              && 0 <= i <= j <= |s| && r == s[i..j]
              && forall k :: (0 <= k < i || j <= k < |s|) ==> IsJsWhitespace(s[k])
    ensures IsTrimmed(r)
    ensures IsTrimmed(s) ==> r == s
    ensures r == [] <==> forall k :: 0 <= k < |s| ==> IsJsWhitespace(s[k])
    ensures |r| <= |s|
  {
    var i := LeadingSpace(s);
    var t := s[i..];
    var j := i + |t| - TrailingSpace(t);
    assert t[..|t| - TrailingSpace(t)] == s[i..j];
    assert forall k :: j <= k < |s| ==> s[k] == t[k - i];
    s[i..j]
  }

  /** Some character of `s` matches `/[A-Z]/`. */
  predicate HasAsciiUpper(s: string) {
    exists i :: 0 <= i < |s| && IsAsciiUpper(s[i])
  }

  /** Some character of `s` matches `/[0-9]/`. */
  predicate HasAsciiDigit(s: string) {
    exists i :: 0 <= i < |s| && IsAsciiDigit(s[i])
  }

  /** The two variation selectors that validator.js leaves out of a length. */
  predicate IsVariationSelector(c: char) { c == '\U{FE0E}' || c == '\U{FE0F}' }

  /** The length validator.js `isLength` measures: code points, less the
      variation selectors U+FE0E and U+FE0F (surrogate pairs already count
      once, because a Dafny `char` is a whole code point). */
  function MeasuredLength(s: string): (n: nat)
    ensures n <= |s|
    ensures (forall i :: 0 <= i < |s| ==> !IsVariationSelector(s[i])) ==> n == |s|
    ensures |s| == 1 ==> (n == 0 <==> IsVariationSelector(s[0]))
  {
    if s == [] then 0
    else (if IsVariationSelector(s[0]) then 0 else 1) + MeasuredLength(s[1..])
  }

  /** The measured length of a concatenation is the sum of the measured
      lengths: every character contributes 1, except a variation selector,
      which contributes 0. */
  lemma {:induction false} MeasuredLengthAppend(a: string, b: string)
    ensures MeasuredLength(a + b) == MeasuredLength(a) + MeasuredLength(b)
  {
    if a != [] {
      assert (a + b)[1..] == a[1..] + b;
      MeasuredLengthAppend(a[1..], b);
    } else {
      assert a + b == b;
    }
  }
}
