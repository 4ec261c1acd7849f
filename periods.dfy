/** The period labels the two dashboards share. */
module Periods {

  import opened Text

  /** The separator a custom date range puts between its two dates on the period button. */
  const RangeSeparator := " to "

  /** The button text of an accepted custom range, its two dates already formatted. */
  function CustomLabel(startText: string, endText: string): string {
    startText + RangeSeparator + endText
  }

  /**
   * The refresh action: the period button's label is used again, unless it
   * names a custom range, which the dashboard cannot rebuild from its label;
   * then `fallback` is used.
   */
  function RefreshPeriod(current: string, fallback: string): (p: string)
    ensures p == current || p == fallback
    ensures p == fallback <==> current == fallback || ContainsText(current, RangeSeparator)
  {
    if ContainsText(current, RangeSeparator) then fallback else current
  }

  /** After a custom range, a refresh shows the fallback period. */
  lemma CustomLabelFallsBack(startText: string, endText: string, fallback: string)
    ensures RefreshPeriod(CustomLabel(startText, endText), fallback) == fallback
  {
    var s := CustomLabel(startText, endText);
    assert s[|startText|..] == RangeSeparator + endText;
  }
}
