/**
 * `OrderDetailActivity`: one order loaded into editable cost, advance and
 * description fields, a status spinner, and the save, delete and message
 * buttons. It differs from the repair screen in what a save demands and how
 * it reads the fields, in the message guard, and in how the description is
 * shown.
 */
module OrderDetail {

  import opened Wrappers
  import opened Records
  import opened Text
  import opened Amount
  import opened Table
  import opened DetailRules
  import opened Repository

  /**
   * The record `saveChanges()` writes back: the status, both amounts and the
   * description are the edited ones, the completion date follows the set-once
   * rule, and every other field is the loaded order's.
   */
  function SavedOrder(o: Order, status: string, cost: int, advance: int, description: Option<string>, now: int): (s: Order)
    ensures s.(status := o.status, totalCost := o.totalCost, advanceTaken := o.advanceTaken,
               description := o.description, dateCompleted := o.dateCompleted) == o
    ensures s.status == status && s.totalCost == cost && s.advanceTaken == advance && s.description == description
    ensures s.dateCompleted == CompletionDate(o.dateCompleted, status, now)
  {
    o.(status := status, totalCost := cost, advanceTaken := advance, description := description,
       dateCompleted := CompletionDate(o.dateCompleted, status, now))
  }

  /** Saving the same edits twice writes the same record as saving them once, whatever the second clock reads. */
  lemma SaveTwiceIsSaveOnce(o: Order, status: string, cost: int, advance: int, description: Option<string>, now: int, later: int)
    ensures var once := SavedOrder(o, status, cost, advance, description, now);
      SavedOrder(once, status, cost, advance, description, later) == once
  {
  }

  /** The description field as `bindDataToViews` fills it: a label, then the description or `N/A`. */
  function LabelledDescription(d: Option<string>): string {
    "Description: " + d.GetOr("N/A")
  }

  /**
   * The description field is read back on save, so saving a freshly loaded
   * order stores the label too, and an absent description becomes present.
   */
  lemma LabelledDescriptionIsStored(d: Option<string>)
    ensures var stored := TrimOrNone(LabelledDescription(d));
      stored.Some? && "Description:" <= stored.value
  {
    assert LabelledDescription(d) == "Description:" + (" " + d.GetOr("N/A"));
    StripKeepsPrefix("Description:", " " + d.GetOr("N/A"), Whitespace);
  }

  /**
   * A described order, saved unedited, gets its description behind the
   * label; since the stored text ends as the description did, every further
   * load and save adds one more label.
   */
  lemma LabelledDescriptionGrows(x: string)
    requires x != [] && !IsWhitespace(x[|x| - 1])
    ensures TrimOrNone(LabelledDescription(Some(x))) == Some("Description: " + x)
  {
    StoredAsTyped("Description: ", x);
  }

  /** An order without a description, saved unedited, gets the description `Description: N/A`. */
  lemma AbsentDescriptionBecomesLabel()
    ensures TrimOrNone(LabelledDescription(None)) == Some("Description: N/A")
  {
    StoredAsTyped("Description: ", "N/A");
    assert "Description: " + "N/A" == "Description: N/A";
  }

  /** A text that neither starts nor ends in whitespace is stored as it is. */
  lemma StoredAsTyped(prefix: string, text: string)
    requires prefix != [] && !IsWhitespace(prefix[0])
    requires text != [] && !IsWhitespace(text[|text| - 1])
    ensures TrimOrNone(prefix + text) == Some(prefix + text)
  {
    var s := prefix + text;
    assert s[0] == prefix[0] && s[|s| - 1] == text[|text| - 1];
    StripUnchanged(s, Whitespace);
  }

  /**
   * The binding evidently intended: the description view shows the stored
   * description itself, empty when absent. The screen binds the labelled form.
   */
  function BoundDescription(d: Option<string>): string {
    d.GetOr("")
  }

  /** Loading a description that a save stored and saving it unedited stores it again. */
  lemma BoundDescriptionRoundTrip(text: string)
    ensures var d := TrimOrNone(text);
      TrimOrNone(BoundDescription(d)) == d
  {
    StripIdempotent(text, Whitespace);
  }

  /**
   * `sendWhatsAppMessage()`: nothing without a loaded order, then the `Out`
   * check; there is no contact check. The due figure is the stored cost minus
   * the stored advance, unclamped, and a missing name greets the customer as
   * `Valued Customer`.
   */
  function MessageFor(current: Option<Order>): (m: Message)
    ensures m.NothingLoaded? <==> current.None?
    ensures !m.NoContact?
    ensures m.Send? <==> current.Some? && current.value.status == StatusOut
    ensures m.Send? ==> && m.phone == "+91" + current.value.customerContact
                        && m.greeting == current.value.customerName.GetOr("Valued Customer")
                        && m.totalCost == current.value.totalCost
                        && m.remainingDue == current.value.totalCost - current.value.advanceTaken
  {
    match current
    case None => NothingLoaded
    case Some(o) =>
      if o.status != StatusOut then NotOut
      else Send("+91" + o.customerContact, o.customerName.GetOr("Valued Customer"), o.totalCost, o.totalCost - o.advanceTaken)
  }

  /** An `Out` order with an empty contact still gets a message, to the bare prefix `+91`. */
  lemma MessageWithoutContact()
    ensures var o := Order(4, None, "", None, None, 5000, 1000, StatusOut, 0, Some(9));
      MessageFor(Some(o)) == Send("+91", "Valued Customer", 5000, 4000)
  {
  }

  class OrderDetailScreen {
    var currentOrder: Option<Order>
    var descriptionText: string
    const amounts: AmountFields
    var selectedStatus: string

    /** The amount fields agree and the spinner shows one of its entries. */
    ghost predicate Valid()
      reads this, amounts
    {
      amounts.Valid() && selectedStatus in StatusOptions
    }

    /** `onCreate`: empty fields, the spinner on its first entry, nothing loaded. */
    constructor ()
      ensures Valid() && fresh(amounts)
      ensures currentOrder == None && descriptionText == [] && amounts.costText == [] && amounts.advanceText == []
      ensures selectedStatus == StatusIn && !amounts.advanceError
    {
      currentOrder := None;
      descriptionText := [];
      amounts := new AmountFields();
      selectedStatus := StatusOptions[0];
    }

    /**
     * A new text in the description view, for a layout that lets it be
     * edited; it has no watcher.
     */
    method EditDescription(text: string)
      requires Valid()
      modifies this`descriptionText
      ensures Valid()
      ensures descriptionText == text
    {
      descriptionText := text;
    }

    /** The user picks entry `i` of the spinner. */
    method SelectStatus(i: nat)
      requires Valid() && i < |StatusOptions|
      modifies this`selectedStatus
      ensures Valid()
      ensures selectedStatus == StatusOptions[i]
    {
      selectedStatus := StatusOptions[i];
    }

    /**
     * `bindDataToViews(order)`: the description view gets the labelled text,
     * the amounts are shown with the advance clamped to the cost, and the
     * spinner moves only to a status it lists.
     */
    method Bind(order: Order)
      requires Valid()
      modifies this`descriptionText, this`selectedStatus, amounts
      ensures Valid()
      ensures descriptionText == LabelledDescription(order.description)
      ensures amounts.Shows(order.totalCost, order.advanceTaken)
      ensures selectedStatus == if order.status in StatusOptions then order.status else old(selectedStatus)
    {
      descriptionText := LabelledDescription(order.description);
      amounts.Bind(order.totalCost, order.advanceTaken);
      if order.status in StatusOptions {
        selectedStatus := order.status;
      }
    }

    /**
     * The observer of `getOrderById(id)`: the first non-null emission is kept
     * and bound; every later emission is ignored.
     */
    method Load(emitted: Option<Order>)
      requires Valid()
      modifies this`currentOrder, this`descriptionText, this`selectedStatus, amounts
      ensures Valid()
      ensures old(currentOrder).None? && emitted.Some? ==>
        && currentOrder == emitted
        && descriptionText == LabelledDescription(emitted.value.description)
        && amounts.Shows(emitted.value.totalCost, emitted.value.advanceTaken)
      ensures old(currentOrder).Some? || emitted.None? ==>
        && currentOrder == old(currentOrder) && descriptionText == old(descriptionText)
        && selectedStatus == old(selectedStatus) && unchanged(amounts)
    {
      if emitted.Some? && currentOrder.None? {
        currentOrder := emitted;
        Bind(emitted.value);
      }
    }

    /**
     * `saveChanges()`. Only the raw cost text must be non-empty; then, with an
     * order loaded, the status is written into it, the cost goes through
     * `toDouble()` (which throws on text it cannot read), the advance through
     * `toDoubleOrNull() ?: 0.0`, the description is trimmed and stored absent
     * when empty, the completion date follows the set-once rule and the record
     * is passed to `updateOrder`.
     */
    method SaveChanges(repo: RepairRepository, now: int) returns (outcome: SaveOutcome)
      requires Valid() && repo.Valid()
      modifies this`currentOrder, repo.orderDao
      ensures Valid() && repo.Valid()
      ensures outcome.Refused? <==> amounts.costText == []
      ensures outcome.NoRecord? <==> !outcome.Refused? && old(currentOrder).None?
      ensures outcome.Crashed? <==> !outcome.Refused? && old(currentOrder).Some? && ParseAmount(amounts.costText).None?
      ensures outcome.Saved? ==>
        var o := SavedOrder(old(currentOrder).value, selectedStatus, ParseAmount(amounts.costText).value,
                            ParseOrZero(amounts.advanceText), TrimOrNone(descriptionText), now);
        && currentOrder == Some(o)
        && repo.orderDao.State() == UpdateRow(old(repo.orderDao.State()), o, OrderId)
      ensures outcome.Refused? || outcome.NoRecord? ==> currentOrder == old(currentOrder)
      ensures outcome.Crashed? ==> currentOrder == Some(old(currentOrder).value.(status := selectedStatus))
      ensures !outcome.Saved? ==> repo.orderDao.State() == old(repo.orderDao.State())
      ensures repo.repairDao.State() == old(repo.repairDao.State())
    {
      if amounts.costText == [] {
        return Refused;
      }
      if currentOrder.None? {
        return NoRecord;
      }
      var order := currentOrder.value.(status := selectedStatus);
      currentOrder := Some(order);
      var cost := ParseAmount(amounts.costText);
      if cost.None? {
        return Crashed;
      }
      var advance := ParseAmount(amounts.advanceText).GetOr(0);
      order := order.(totalCost := cost.value, advanceTaken := advance, description := TrimOrNone(descriptionText));
      if selectedStatus == StatusOut && order.dateCompleted.None? {
        order := order.(dateCompleted := Some(now));
      }
      currentOrder := Some(order);
      repo.UpdateOrder(order);
      outcome := Saved;
    }

    /** The confirmed delete: the loaded order's row goes, by its id; with nothing loaded nothing happens. */
    method Delete(repo: RepairRepository) returns (deleted: bool)
      requires Valid() && repo.Valid()
      modifies repo.orderDao
      ensures repo.Valid()
      ensures deleted <==> currentOrder.Some?
      ensures deleted ==> repo.orderDao.State() == DeleteRow(old(repo.orderDao.State()), currentOrder.value, OrderId)
      ensures deleted ==> !HasKey(repo.orderDao.rows, currentOrder.value.id, OrderId)
      ensures !deleted ==> repo.orderDao.State() == old(repo.orderDao.State())
    {
      deleted := currentOrder.Some?;
      if deleted {
        repo.DeleteOrder(currentOrder.value);
        DeleteRowValid(old(repo.orderDao.State()), currentOrder.value, OrderId);
      }
    }
  }
}
