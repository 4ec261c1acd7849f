/**
 * `AddOrderActivity`: a form for a new order, a camera button that names the
 * photo file, and the save button that inserts the order, dated when it is
 * saved.
 */
module AddOrder {

  import opened Wrappers
  import opened Records
  import opened Text
  import opened Amount
  import opened Table
  import opened Repository

  /** The texts of the form's fields, as typed. */
  datatype OrderForm = OrderForm(name: string, contact: string, description: string, costText: string, advanceText: string)

  /**
   * The order `saveOrder()` builds, or `None` when the trimmed contact or the
   * trimmed cost text is empty. Every text is trimmed; a blank name or
   * description is stored absent; both amounts are read with
   * `toDoubleOrNull() ?: 0.0`, with no check of the advance against the
   * cost; the order starts `In`, with no id and no completion date.
   */
  function NewOrder(form: OrderForm, imagePath: Option<string>, now: int): (o: Option<Order>)
    ensures o.None? <==> Trim(form.contact) == [] || Trim(form.costText) == []
    ensures o.Some? ==>
      && o.value.id == 0 && o.value.status == StatusIn && o.value.dateCompleted.None?
      && o.value.dateAdded == now && o.value.imagePath == imagePath
      && o.value.customerContact == Trim(form.contact) && o.value.customerContact != []
      && o.value.customerName == TrimOrNone(form.name)
      && o.value.description == TrimOrNone(form.description)
      && o.value.totalCost == ParseAmount(Trim(form.costText)).GetOr(0)
      && o.value.advanceTaken == ParseAmount(Trim(form.advanceText)).GetOr(0)
  {
    var contact := Trim(form.contact);
    var costText := Trim(form.costText);
    if contact == [] || costText == [] then None
    else
      Some(Order(0, TrimOrNone(form.name), contact, imagePath, TrimOrNone(form.description),
                 ParseOrZero(costText), ParseOrZero(Trim(form.advanceText)), StatusIn, now, None))
  }

  /**
   * Amounts typed as the detail screens show them are read back exactly, and
   * an advance above the cost is accepted as it is.
   */
  lemma TypedAmountsAreKept(form: OrderForm, cost: int, advance: int, imagePath: Option<string>, now: int)
    requires Trim(form.contact) != []
    ensures var o := NewOrder(form.(costText := ShowAmount(cost), advanceText := ShowAmount(advance)), imagePath, now);
      o.Some? && o.value.totalCost == cost && o.value.advanceTaken == advance
  {
    ShowAmountTrimmed(cost);
    ShowAmountTrimmed(advance);
    ParseShowAmount(cost);
    ParseShowAmount(advance);
  }

  class AddOrderScreen {
    /** The path of the last photo file created, whether or not a photo was taken into it. */
    var latestImageSavedPath: Option<string>

    constructor ()
      ensures latestImageSavedPath == None
    {
      latestImageSavedPath := None;
    }

    /** `getTmpFileUri()`: a new photo file is created and its path remembered. */
    method CreateImageFile(path: string)
      modifies this`latestImageSavedPath
      ensures latestImageSavedPath == Some(path)
    {
      latestImageSavedPath := Some(path);
    }

    /**
     * `saveOrder()` with the clock reading `now`: a valid form appends the new
     * order to the table under the next id; an invalid one changes nothing.
     */
    method SaveOrder(repo: RepairRepository, form: OrderForm, now: int) returns (saved: bool)
      requires repo.Valid()
      modifies repo.orderDao
      ensures repo.Valid()
      ensures saved <==> NewOrder(form, latestImageSavedPath, now).Some?
      ensures saved ==>
        && repo.orderDao.lastId == old(repo.orderDao.lastId) + 1
        && repo.orderDao.rows == old(repo.orderDao.rows)
             + [NewOrder(form, latestImageSavedPath, now).value.(id := repo.orderDao.lastId)]
      ensures !saved ==> repo.orderDao.State() == old(repo.orderDao.State())
      ensures repo.repairDao.State() == old(repo.repairDao.State())
    {
      var order := NewOrder(form, latestImageSavedPath, now);
      if order.None? {
        return false;
      }
      var ok := repo.InsertOrder(order.value);
      saved := true;
    }
  }
}
