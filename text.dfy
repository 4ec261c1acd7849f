/** Character classes, decimal rendering and Kotlin's `trim()` on strings. */
module Text {

  import opened Wrappers

  predicate IsDigit(c: char) {
    '0' <= c <= '9'
  }

  predicate AllDigits(s: string) {
    forall i :: 0 <= i < |s| ==> IsDigit(s[i])
  }

  function DigitValue(c: char): nat
    requires IsDigit(c)
  {
    c as int - '0' as int
  }

  function DigitChar(d: nat): (c: char)
    requires d < 10
    ensures IsDigit(c) && DigitValue(c) == d
  {
    ('0' as int + d) as char
  }

  /** The decimal digits of `n`, most significant first, without leading zeros. */
  function NatToString(n: nat): (s: string)
    ensures 1 <= |s| && AllDigits(s)
    ensures n < 10 <==> |s| == 1
    decreases n
  {
    if n < 10 then [DigitChar(n)] else NatToString(n / 10) + [DigitChar(n % 10)]
  }

  /** The longest prefix of `s` made of decimal digits. */
  function LeadingDigits(s: string): (w: string)
    ensures AllDigits(w) && w <= s
    ensures |w| < |s| ==> !IsDigit(s[|w|])
  {
    if s != [] && IsDigit(s[0]) then [s[0]] + LeadingDigits(s[1..]) else []
  }

  /** The number a string of decimal digits denotes ("" denotes 0). */
  function DigitsValue(s: string): nat
    requires AllDigits(s)
  {
    if s == [] then 0 else DigitsValue(s[..|s| - 1]) * 10 + DigitValue(s[|s| - 1])
  }

  lemma {:induction false} DigitsValueOfNatToString(n: nat)
    ensures DigitsValue(NatToString(n)) == n
    decreases n
  {
    var s := NatToString(n);
    if n >= 10 {
      DigitsValueOfNatToString(n / 10);
      assert s[..|s| - 1] == NatToString(n / 10);
    }
  }

  /** Kotlin's string template of a `Long`: an optional minus sign, then the digits. */
  function IntToString(n: int): (s: string)
    ensures 1 <= |s|
    ensures n >= 0 <==> IsDigit(s[0])
  {
    if n < 0 then "-" + NatToString(-n) else NatToString(n)
  }

  /** Kotlin's `Char.isWhitespace()`: Java whitespace plus the Unicode space separators. */
  predicate IsWhitespace(c: char) {
    || '\t' <= c <= '\r'
    || '\U{1C}' <= c <= ' '
    || c == '\U{A0}' || c == '\U{1680}'
    || '\U{2000}' <= c <= '\U{200A}'
    || c == '\U{2028}' || c == '\U{2029}' || c == '\U{202F}' || c == '\U{205F}' || c == '\U{3000}'
  }

  /** The JVM's number screening skips `[\x00-\x20]` around a number. */
  predicate IsScreenSpace(c: char) {
    c <= ' '
  }

  /** The character classes the screens skip over or read. */
  datatype CharClass = Whitespace | ScreenSpace

  predicate InClass(c: char, p: CharClass) {
    match p
    case Whitespace => IsWhitespace(c)
    case ScreenSpace => IsScreenSpace(c)
  }

  /** The number of leading characters of `s` in class `p`. */
  function LeadingWhere(s: string, p: CharClass): (k: nat)
    ensures k <= |s|
  {
    if s != [] && InClass(s[0], p) then 1 + LeadingWhere(s[1..], p) else 0
  }

  /** The leading run is all in class `p`, and the character after it is not. */
  lemma {:induction false} LeadingWhereSpan(s: string, p: CharClass)
    ensures forall i :: 0 <= i < LeadingWhere(s, p) ==> InClass(s[i], p)
    ensures LeadingWhere(s, p) < |s| ==> !InClass(s[LeadingWhere(s, p)], p)
    decreases |s|
  {
    if s != [] && InClass(s[0], p) {
      LeadingWhereSpan(s[1..], p);
      assert forall i :: 1 <= i < |s| ==> s[i] == s[1..][i - 1];
    }
  }

  /** The number of trailing characters of `s` in class `p`. */
  function TrailingWhere(s: string, p: CharClass): (k: nat)
    ensures k <= |s|
  {
    if s != [] && InClass(s[|s| - 1], p) then 1 + TrailingWhere(s[..|s| - 1], p) else 0
  }

  /** The trailing run is all in class `p`, and the character before it is not. */
  lemma {:induction false} TrailingWhereSpan(s: string, p: CharClass)
    ensures forall i :: |s| - TrailingWhere(s, p) <= i < |s| ==> InClass(s[i], p)
    ensures TrailingWhere(s, p) < |s| ==> !InClass(s[|s| - 1 - TrailingWhere(s, p)], p)
    decreases |s|
  {
    if s != [] && InClass(s[|s| - 1], p) {
      TrailingWhereSpan(s[..|s| - 1], p);
    }
  }

  /** `s` without its leading and trailing characters in class `p`. */
  function Strip(s: string, p: CharClass): (t: string)
    ensures |t| <= |s|
  {
    var a := LeadingWhere(s, p);
    var b := TrailingWhere(s[a..], p);
    s[a..|s| - b]
  }

  /**
   * What is left after stripping neither starts nor ends in class `p`, and
   * nothing is left exactly when every character of `s` is in it.
   */
  lemma StripEnds(s: string, p: CharClass)
    ensures var t := Strip(s, p);
      && (t != [] ==> !InClass(t[0], p) && !InClass(t[|t| - 1], p))
      && (t == [] <==> forall i :: 0 <= i < |s| ==> InClass(s[i], p))
  {
    var a := LeadingWhere(s, p);
    LeadingWhereSpan(s, p);
    TrailingWhereSpan(s[a..], p);
    var b := TrailingWhere(s[a..], p);
    if a < |s| {
      assert !InClass(s[a..][0], p);
      assert b < |s| - a;
    }
  }

  lemma StripUnchanged(s: string, p: CharClass)
    requires s != [] ==> !InClass(s[0], p) && !InClass(s[|s| - 1], p)
    ensures Strip(s, p) == s
  {
  }

  lemma {:induction false} StripIdempotent(s: string, p: CharClass)
    ensures Strip(Strip(s, p), p) == Strip(s, p)
  {
    StripEnds(s, p);
    StripUnchanged(Strip(s, p), p);
  }

  /** Trailing characters in class `p` never reach into a prefix that does not end in `p`. */
  lemma {:induction false} TrailingWithin(pre: string, rest: string, p: CharClass)
    requires pre != [] && !InClass(pre[|pre| - 1], p)
    ensures TrailingWhere(pre + rest, p) <= |rest|
    decreases |rest|
  {
    var s := pre + rest;
    if rest == [] {
      assert s == pre;
    } else if InClass(s[|s| - 1], p) {
      assert s[..|s| - 1] == pre + rest[..|rest| - 1];
      TrailingWithin(pre, rest[..|rest| - 1], p);
    }
  }

  /** Stripping keeps a prefix that neither starts nor ends in class `p`. */
  lemma StripKeepsPrefix(pre: string, rest: string, p: CharClass)
    requires pre != [] && !InClass(pre[0], p) && !InClass(pre[|pre| - 1], p)
    ensures pre <= Strip(pre + rest, p)
  {
    var s := pre + rest;
    assert s[0] == pre[0];
    TrailingWithin(pre, rest, p);
  }

  /** Kotlin's `String.trim()`. */
  function Trim(s: string): string {
    Strip(s, Whitespace)
  }

  /** Kotlin's `s.contains(sub)`: `sub` occurs in `s` at some position. */
  predicate ContainsText(s: string, sub: string) {
    exists i :: 0 <= i <= |s| && sub <= s[i..]
  }

  /** `s.trim().ifEmpty { null }`: a text of nothing but whitespace is stored as absent. */
  function TrimOrNone(s: string): (r: Option<string>)
    ensures r.None? <==> forall i :: 0 <= i < |s| ==> IsWhitespace(s[i])
    ensures r.Some? ==> r.value == Trim(s)
  {
    StripEnds(s, Whitespace);
    EmptyToNone(Trim(s))
  }

  /** Kotlin's `s.ifEmpty { null }`. */
  function EmptyToNone(s: string): (r: Option<string>)
    ensures r.None? <==> s == []
    ensures r.Some? ==> r.value == s
  {
    if s == [] then None else Some(s)
  }
}
