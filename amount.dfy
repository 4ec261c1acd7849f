/**
 * Money amounts as the screens read and write them. An amount is an integer
 * number of hundredths; the text forms follow Kotlin's `toDoubleOrNull()` and
 * `Double.toString()` on the decimal numbers a cash amount is typed as.
 */
module Amount {

  import opened Wrappers
  import opened Text

  /** Hundredths denoted by a fraction of at most two digits after the point. */
  function FractionCents(frac: string): (f: nat)
    requires |frac| <= 2 && AllDigits(frac)
    ensures f < 100
  {
    if |frac| == 0 then 0
    else if |frac| == 1 then DigitValue(frac[0]) * 10
    else DigitValue(frac[0]) * 10 + DigitValue(frac[1])
  }

  /** An unsigned decimal `D+`, `D+.`, `D+.D`, `D+.DD`, `.D` or `.DD`, in hundredths. */
  function ParseUnsigned(s: string): Option<nat> {
    var w := LeadingDigits(s);
    match PointTail(s[|w|..], w != [])
    case Some(f) => Some(DigitsValue(w) * 100 + f)
    case None => None
  }

  /**
   * The hundredths of what follows the whole digits: nothing, or a point and
   * at most two digits; a lone point, or nothing at all, needs whole digits
   * before it.
   */
  function PointTail(rest: string, hasWhole: bool): Option<nat> {
    if rest == [] then (if hasWhole then Some(0) else None)
    else if rest[0] != '.' then None
    else
      var frac := rest[1..];
      if |frac| > 2 || !AllDigits(frac) || (!hasWhole && frac == []) then None
      else Some(FractionCents(frac))
  }

  /**
   * `text.toDoubleOrNull()` on the amounts the model covers: surrounding
   * `[\x00-\x20]` is ignored and a leading `+` or `-` is allowed. `None` is
   * Kotlin's `null`.
   */
  function ParseAmount(text: string): Option<int> {
    var t := Strip(text, ScreenSpace);
    var signed := t != [] && (t[0] == '-' || t[0] == '+');
    match ParseUnsigned(if signed then t[1..] else t)
    case Some(v) => Some(if signed && t[0] == '-' then -(v as int) else v as int)
    case None => None
  }

  /** `text.toDoubleOrNull() ?: 0.0`. */
  function ParseOrZero(text: string): int {
    ParseAmount(text).GetOr(0)
  }

  /** The digits after the point in `Double.toString()`: one, or two when the second is not 0. */
  function FractionText(f: nat): (s: string)
    requires f < 100
    ensures 1 <= |s| <= 2 && AllDigits(s)
  {
    if f % 10 == 0 then [DigitChar(f / 10)] else [DigitChar(f / 10), DigitChar(f % 10)]
  }

  /** `amount.toString()` of a `Double` holding `cents / 100` (below ten million units). */
  function ShowAmount(cents: int): string {
    if cents < 0 then "-" + ShownBody(-cents) else ShownBody(cents)
  }

  /** The unsigned part of `Double.toString()`: whole units, a point and the fraction digits. */
  function ShownBody(m: nat): (s: string)
    ensures s != [] && IsDigit(s[0]) && IsDigit(s[|s| - 1])
  {
    var w := NatToString(m / 100);
    var f := FractionText(m % 100);
    assert (w + "." + f)[0] == w[0];
    w + "." + f
  }

  /** The fraction digits `Double.toString()` writes denote the hundredths they came from. */
  lemma FractionTextValue(f: nat)
    requires f < 100
    ensures FractionCents(FractionText(f)) == f
  {
  }

  /** Digits, a point and one or two digits read as whole units and hundredths. */
  lemma ParseUnsignedPointed(w: string, frac: string)
    requires w != [] && AllDigits(w)
    requires 1 <= |frac| <= 2 && AllDigits(frac)
    ensures ParseUnsigned(w + "." + frac) == Some(DigitsValue(w) * 100 + FractionCents(frac))
  {
    var rest := "." + frac;
    assert w + "." + frac == w + rest;
    LeadingDigitsOf(w, rest);
    assert (w + rest)[|w|..] == rest;
    ParseUnsignedAt(w + rest, w, rest);
    PointTailOfFraction(frac);
  }

  /** A text read as its whole digits `w` followed by `rest`. */
  lemma ParseUnsignedAt(s: string, w: string, rest: string)
    requires LeadingDigits(s) == w && s[|w|..] == rest
    ensures ParseUnsigned(s) == match PointTail(rest, w != []) case Some(f) => Some(DigitsValue(w) * 100 + f) case None => None
  {
  }

  lemma PointTailOfFraction(frac: string)
    requires 1 <= |frac| <= 2 && AllDigits(frac)
    ensures PointTail("." + frac, true) == Some(FractionCents(frac))
  {
    assert ("." + frac)[1..] == frac;
  }

  lemma ParseUnsignedOfShown(m: nat)
    ensures ParseUnsigned(ShownBody(m)) == Some(m)
  {
    ParseUnsignedPointed(NatToString(m / 100), FractionText(m % 100));
    DigitsValueOfNatToString(m / 100);
    FractionTextValue(m % 100);
  }

  lemma {:induction false} LeadingDigitsOf(w: string, rest: string)
    requires AllDigits(w)
    requires rest == [] || !IsDigit(rest[0])
    ensures LeadingDigits(w + rest) == w
    decreases |w|
  {
    if w != [] {
      assert (w + rest)[1..] == w[1..] + rest;
      LeadingDigitsOf(w[1..], rest);
      assert w == [w[0]] + w[1..];
    } else {
      assert w + rest == rest;
    }
  }

  lemma ParseAmountUnsigned(body: string, m: nat)
    requires body != [] && IsDigit(body[0]) && IsDigit(body[|body| - 1])
    requires ParseUnsigned(body) == Some(m)
    ensures ParseAmount(body) == Some(m)
  {
    StripUnchanged(body, ScreenSpace);
  }

  lemma ParseAmountNegated(body: string, m: nat)
    requires body != [] && IsDigit(body[|body| - 1])
    requires ParseUnsigned(body) == Some(m)
    ensures ParseAmount("-" + body) == Some(-(m as int))
  {
    var t := "-" + body;
    assert t[0] == '-' && t[|t| - 1] == body[|body| - 1];
    StripUnchanged(t, ScreenSpace);
    assert t[1..] == body;
    assert ParseUnsigned(t[1..]) == Some(m);
  }

  /** Writing an amount into a field and reading it back gives the same amount. */
  lemma {:induction false} ParseShowAmount(cents: int)
    ensures ParseAmount(ShowAmount(cents)) == Some(cents)
    ensures ParseOrZero(ShowAmount(cents)) == cents
  {
    if cents < 0 {
      var m: nat := -cents;
      var b := ShownBody(m);
      assert ShowAmount(cents) == "-" + b;
      ParseUnsignedOfShown(m);
      ParseAmountNegated(b, m);
      assert ParseAmount("-" + b) == Some(cents);
    } else {
      ParseUnsignedOfShown(cents);
      ParseAmountUnsigned(ShownBody(cents), cents);
    }
  }

  /** A shown amount has nothing for `trim()` to remove. */
  lemma ShowAmountTrimmed(cents: int)
    ensures Trim(ShowAmount(cents)) == ShowAmount(cents)
  {
    var s := ShowAmount(cents);
    if cents < 0 {
      var b := ShownBody(-cents);
      assert s[0] == '-' && s[|s| - 1] == b[|b| - 1];
    }
    StripUnchanged(s, Whitespace);
  }
}
