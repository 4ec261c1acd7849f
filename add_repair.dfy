/**
 * `AddRepairActivity`: a form for a new repair, a date picker that moves the
 * repair's date, a camera button that names the photo file, and the save
 * button that inserts the repair.
 */
module AddRepair {

  import opened Wrappers
  import opened Records
  import opened Text
  import opened Amount
  import opened Clock
  import opened Table
  import opened Repository

  /** The texts of the form's fields, as typed. */
  datatype RepairForm = RepairForm(
    name: string,
    contact: string,
    alternateContact: string,
    imei: string,
    description: string,
    costText: string,
    advanceText: string)

  /**
   * The repair `saveRepair()` builds, or `None` when the trimmed contact or
   * the trimmed cost text is empty. Every text is trimmed; a blank optional
   * field is stored absent; both amounts are read with
   * `toDoubleOrNull() ?: 0.0`, with no check of the advance against the
   * cost; the repair starts `In`, with no id and no completion date.
   */
  function NewRepair(form: RepairForm, imagePath: Option<string>, dateAdded: int): (r: Option<Repair>)
    ensures r.None? <==> Trim(form.contact) == [] || Trim(form.costText) == []
    ensures r.Some? ==>
      && r.value.id == 0 && r.value.status == StatusIn && r.value.dateCompleted.None?
      && r.value.dateAdded == dateAdded && r.value.imagePath == imagePath
      && r.value.customerContact == Trim(form.contact) && r.value.customerContact != []
      && r.value.customerName == TrimOrNone(form.name)
      && r.value.alternateContact == TrimOrNone(form.alternateContact)
      && r.value.imeiNumber == TrimOrNone(form.imei)
      && r.value.description == TrimOrNone(form.description)
      && r.value.totalCost == ParseAmount(Trim(form.costText)).GetOr(0)
      && r.value.advanceTaken == ParseAmount(Trim(form.advanceText)).GetOr(0)
  {
    var contact := Trim(form.contact);
    var costText := Trim(form.costText);
    if contact == [] || costText == [] then None
    else
      Some(Repair(0, TrimOrNone(form.name), contact, TrimOrNone(form.alternateContact), TrimOrNone(form.imei),
                  TrimOrNone(form.description), imagePath, ParseOrZero(costText), ParseOrZero(Trim(form.advanceText)),
                  StatusIn, dateAdded, None))
  }

  /**
   * Amounts typed as the detail screens show them are read back exactly, and
   * an advance above the cost is accepted as it is.
   */
  lemma TypedAmountsAreKept(form: RepairForm, cost: int, advance: int, imagePath: Option<string>, dateAdded: int)
    requires Trim(form.contact) != []
    ensures var r := NewRepair(form.(costText := ShowAmount(cost), advanceText := ShowAmount(advance)), imagePath, dateAdded);
      r.Some? && r.value.totalCost == cost && r.value.advanceTaken == advance
  {
    ShowAmountTrimmed(cost);
    ShowAmountTrimmed(advance);
    ParseShowAmount(cost);
    ParseShowAmount(advance);
  }

  class AddRepairScreen {
    /** The repair's `dateAdded`: the screen's creation time until a date is picked. */
    var selectedDateTimestamp: int
    /** The path of the last photo file created, whether or not a photo was taken into it. */
    var latestImageSavedPath: Option<string>

    constructor (now: int)
      ensures selectedDateTimestamp == now && latestImageSavedPath == None
    {
      selectedDateTimestamp := now;
      latestImageSavedPath := None;
    }

    /**
     * The date picker's callback: a fresh calendar, read at `now`, gets the
     * picked date (here the local day number `day`), so the time of day is
     * the one at which the date was picked.
     */
    method PickDate(day: int, now: int)
      modifies this`selectedDateTimestamp
      ensures DayOf(selectedDateTimestamp) == day
      ensures HourOfDay(selectedDateTimestamp) == HourOfDay(now) && MinuteOfHour(selectedDateTimestamp) == MinuteOfHour(now)
      ensures SecondOfMinute(selectedDateTimestamp) == SecondOfMinute(now) && MilliOfSecond(selectedDateTimestamp) == MilliOfSecond(now)
    {
      selectedDateTimestamp := AddDays(now, day - DayOf(now));
    }

    /** `getTmpFileUri()`: a new photo file is created and its path remembered. */
    method CreateImageFile(path: string)
      modifies this`latestImageSavedPath
      ensures latestImageSavedPath == Some(path)
    {
      latestImageSavedPath := Some(path);
    }

    /**
     * `saveRepair()`: a valid form appends the new repair to the table under
     * the next id; an invalid one changes nothing.
     */
    method SaveRepair(repo: RepairRepository, form: RepairForm) returns (saved: bool)
      requires repo.Valid()
      modifies repo.repairDao
      ensures repo.Valid()
      ensures saved <==> NewRepair(form, latestImageSavedPath, selectedDateTimestamp).Some?
      ensures saved ==>
        && repo.repairDao.lastId == old(repo.repairDao.lastId) + 1
        && repo.repairDao.rows == old(repo.repairDao.rows)
             + [NewRepair(form, latestImageSavedPath, selectedDateTimestamp).value.(id := repo.repairDao.lastId)]
      ensures !saved ==> repo.repairDao.State() == old(repo.repairDao.State())
      ensures repo.orderDao.State() == old(repo.orderDao.State())
    {
      var repair := NewRepair(form, latestImageSavedPath, selectedDateTimestamp);
      if repair.None? {
        return false;
      }
      var ok := repo.Insert(repair.value);
      saved := true;
    }
  }
}
