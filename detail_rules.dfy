/**
 * The rules the two detail screens share: `validateAndCalculate()`, which
 * keeps the advance field at or below the cost field, and the set-once
 * completion date of `saveChanges()`.
 */
module DetailRules {

  import opened Wrappers
  import opened Records
  import opened Amount

  /** How a press of the save button ends. `Crashed` is the `NumberFormatException` of `toDouble()`. */
  datatype SaveOutcome = Refused | NoRecord | Crashed | Saved

  /** The guard of the message button, and the figures a permitted message carries. */
  datatype Message =
    | NothingLoaded
    | NoContact
    | NotOut
    | Send(phone: string, greeting: string, totalCost: int, remainingDue: int)

  /** What one run of `validateAndCalculate()` leaves in the advance field, its error and the due label. */
  datatype AdvanceCheck = AdvanceCheck(advanceText: string, error: bool, remainingDue: int)

  /**
   * Both fields read with `toDoubleOrNull() ?: 0.0`; an advance above the cost
   * is replaced by the cost and flagged, any other advance is left as typed.
   */
  function CheckAdvance(costText: string, advanceText: string): (c: AdvanceCheck)
    ensures c.error <==> ParseOrZero(advanceText) > ParseOrZero(costText)
    ensures !c.error ==> c.advanceText == advanceText
  {
    var cost := ParseOrZero(costText);
    var advance := ParseOrZero(advanceText);
    if advance > cost then AdvanceCheck(ShowAmount(cost), true, 0)
    else AdvanceCheck(advanceText, false, cost - advance)
  }

  /**
   * The advance the check leaves reads as the smaller of the two amounts,
   * and the due label is the cost minus it, never negative.
   */
  lemma CheckAdvanceClamps(costText: string, advanceText: string)
    ensures var cost := ParseOrZero(costText);
      var advance := ParseOrZero(advanceText);
      var c := CheckAdvance(costText, advanceText);
      && ParseOrZero(c.advanceText) == (if advance > cost then cost else advance)
      && c.remainingDue == cost - ParseOrZero(c.advanceText)
      && c.remainingDue >= 0
  {
    ParseShowAmount(ParseOrZero(costText));
  }

  /** The fields agree: the advance does not exceed the cost and the due label is their difference. */
  ghost predicate Consistent(costText: string, advanceText: string, remainingDue: int) {
    ParseOrZero(advanceText) <= ParseOrZero(costText) && remainingDue == ParseOrZero(costText) - ParseOrZero(advanceText)
  }

  /** After one check the fields agree, and a second check changes nothing and shows no error. */
  lemma CheckAdvanceSettles(costText: string, advanceText: string)
    ensures var c := CheckAdvance(costText, advanceText);
      && Consistent(costText, c.advanceText, c.remainingDue)
      && CheckAdvance(costText, c.advanceText) == AdvanceCheck(c.advanceText, false, c.remainingDue)
  {
    CheckAdvanceClamps(costText, advanceText);
  }

  /**
   * Loading a record sets the cost field, then the advance field, then checks
   * once more. Whatever the advance field held before, the last check leaves
   * the stored advance clamped to the stored cost and shows no error.
   */
  lemma LoadedFieldsSettle(cost: int, advance: int, prior: string)
    ensures var clamped := if advance > cost then cost else advance;
      var c1 := CheckAdvance(ShowAmount(cost), prior);
      var c2 := CheckAdvance(ShowAmount(cost), ShowAmount(advance));
      var c3 := CheckAdvance(ShowAmount(cost), c2.advanceText);
      && c3 == AdvanceCheck(ShowAmount(clamped), false, cost - clamped)
      && Consistent(ShowAmount(cost), c1.advanceText, c1.remainingDue)
      && Consistent(ShowAmount(cost), c3.advanceText, c3.remainingDue)
  {
    ParseShowAmount(cost);
    ParseShowAmount(advance);
    CheckAdvanceSettles(ShowAmount(cost), prior);
    CheckAdvanceSettles(ShowAmount(cost), ShowAmount(advance));
  }

  /**
   * The cost field, the advance field with its error, and the due label, as
   * both detail screens hold them. A text watcher on each of the two fields
   * runs `validateAndCalculate()` unless a check is already rewriting them.
   */
  class AmountFields {
    var costText: string
    var advanceText: string
    var advanceError: bool
    var remainingDue: int
    var isUpdating: bool

    /** Outside a check the watchers are live and the fields agree. */
    ghost predicate Valid()
      reads this
    {
      !isUpdating && Consistent(costText, advanceText, remainingDue)
    }

    /** The fields after a record with these amounts is bound. */
    ghost predicate Shows(cost: int, advance: int)
      reads this
    {
      var clamped := if advance > cost then cost else advance;
      && costText == ShowAmount(cost)
      && advanceText == ShowAmount(clamped)
      && !advanceError
      && remainingDue == cost - clamped
    }

    /** Empty fields, no error, nothing due. */
    constructor ()
      ensures Valid()
      ensures costText == [] && advanceText == [] && !advanceError && remainingDue == 0
    {
      costText := [];
      advanceText := [];
      advanceError := false;
      remainingDue := 0;
      isUpdating := false;
    }

    /**
     * The arithmetic of `validateAndCalculate()`: both fields read with
     * `toDoubleOrNull() ?: 0.0`, the advance lowered to the cost when above
     * it, and the cost minus the advance as the amount due.
     */
    static method Calculate(costText: string, advanceText: string) returns (shownAdvance: string, error: bool, remainingDue: int)
      ensures CheckAdvance(costText, advanceText) == AdvanceCheck(shownAdvance, error, remainingDue)
    {
      var totalCost := ParseOrZero(costText);
      var advanceTaken := ParseOrZero(advanceText);
      shownAdvance := advanceText;
      if advanceTaken > totalCost {
        advanceTaken := totalCost;
        error := true;
        shownAdvance := ShowAmount(advanceTaken);
      } else {
        error := false;
      }
      remainingDue := totalCost - advanceTaken;
    }

    /**
     * `validateAndCalculate()`. The advance field is rewritten with
     * `isUpdating` set, so its watcher does not run the check again.
     */
    method ValidateAndCalculate()
      modifies this`advanceText, this`advanceError, this`remainingDue, this`isUpdating
      ensures var c := CheckAdvance(old(costText), old(advanceText));
        advanceText == c.advanceText && advanceError == c.error && remainingDue == c.remainingDue
      ensures !isUpdating
    {
      isUpdating := true;
      var typedCost, typedAdvance := costText, advanceText;
      var shown, error, due := Calculate(typedCost, typedAdvance);
      advanceError, advanceText := error, shown;
      remainingDue := due;
      isUpdating := false;
    }

    /** A new text in the cost field, typed or set: the watcher runs the check. */
    method EditCost(text: string)
      requires Valid()
      modifies this`costText, this`advanceText, this`advanceError, this`remainingDue, this`isUpdating
      ensures Valid()
      ensures costText == text
      ensures var c := CheckAdvance(text, old(advanceText));
        advanceText == c.advanceText && advanceError == c.error && remainingDue == c.remainingDue
    {
      costText := text;
      if !isUpdating {
        ValidateAndCalculate();
      }
      CheckAdvanceSettles(text, old(advanceText));
    }

    /** A new text in the advance field, typed or set: the watcher runs the check. */
    method EditAdvance(text: string)
      requires Valid()
      modifies this`advanceText, this`advanceError, this`remainingDue, this`isUpdating
      ensures Valid()
      ensures var c := CheckAdvance(costText, text);
        advanceText == c.advanceText && advanceError == c.error && remainingDue == c.remainingDue
    {
      advanceText := text;
      if !isUpdating {
        ValidateAndCalculate();
      }
      CheckAdvanceSettles(costText, text);
    }

    /**
     * The amount half of `bindDataToViews`: setting the cost and then the
     * advance runs the check twice, and the explicit call after them a third
     * time. A stored advance above the cost is shown clamped, and the error
     * the second check raises is cleared by the third.
     */
    method Bind(cost: int, advance: int)
      requires Valid()
      modifies this
      ensures Valid()
      ensures Shows(cost, advance)
    {
      LoadedFieldsSettle(cost, advance, advanceText);
      var costShown, advanceShown := ShowAmount(cost), ShowAmount(advance);
      EditCost(costShown);
      EditAdvance(advanceShown);
      ghost var c2 := CheckAdvance(costShown, advanceShown);
      assert AdvanceCheck(advanceText, advanceError, remainingDue) == c2;
      ValidateAndCalculate();
      assert AdvanceCheck(advanceText, advanceError, remainingDue) == CheckAdvance(costShown, c2.advanceText);
    }
  }

  /**
   * `if (selectedStatus == "Out" && dateCompleted == null) dateCompleted = now`:
   * a date once set stays, and an absent one is set exactly by a save as `Out`.
   */
  function CompletionDate(prior: Option<int>, status: string, now: int): (d: Option<int>)
    ensures prior.Some? ==> d == prior
    ensures prior.None? ==> (d.Some? <==> status == StatusOut)
    ensures prior.None? && d.Some? ==> d.value == now
  {
    if status == StatusOut && prior.None? then Some(now) else prior
  }

  /** The completion date after a series of saves, each with a status and a clock reading. */
  function AfterSaves(prior: Option<int>, saves: seq<(string, int)>): Option<int>
    decreases |saves|
  {
    if saves == [] then prior
    else AfterSaves(CompletionDate(prior, saves[0].0, saves[0].1), saves[1..])
  }

  /** The clock reading of the first save as `Out`, if there is one. */
  function FirstOutSave(saves: seq<(string, int)>): (t: Option<int>)
    ensures t.Some? <==> exists i :: 0 <= i < |saves| && saves[i].0 == StatusOut
  {
    if saves == [] then None
    else if saves[0].0 == StatusOut then Some(saves[0].1)
    else
      var t := FirstOutSave(saves[1..]);
      assert forall i :: 1 <= i < |saves| ==> saves[i] == saves[1..][i - 1];
      t
  }

  /**
   * Over any series of saves the completion date is the one the record came
   * with, or else the time of the first save as `Out`: later saves, as `Out`
   * or not, never move or clear it.
   */
  lemma {:induction false} DateIsFirstOutSave(prior: Option<int>, saves: seq<(string, int)>)
    ensures AfterSaves(prior, saves) == if prior.Some? then prior else FirstOutSave(saves)
    decreases |saves|
  {
    if saves != [] {
      DateIsFirstOutSave(CompletionDate(prior, saves[0].0, saves[0].1), saves[1..]);
    }
  }
}
