/**
 * `RepairDetailActivity`: one repair loaded into editable cost, advance and
 * description fields, a status spinner, and the save, delete and message
 * buttons.
 */
module RepairDetail {

  import opened Wrappers
  import opened Records
  import opened Text
  import opened Amount
  import opened Table
  import opened DetailRules
  import opened Repository

  /**
   * The record `saveChanges()` writes back: the status, both amounts and the
   * description are the edited ones, the completion date follows the set-once
   * rule, and every other field is the loaded record's.
   */
  function SavedRepair(r: Repair, status: string, cost: int, advance: int, description: string, now: int): (s: Repair)
    ensures s.(status := r.status, totalCost := r.totalCost, advanceTaken := r.advanceTaken,
               description := r.description, dateCompleted := r.dateCompleted) == r
    ensures s.status == status && s.totalCost == cost && s.advanceTaken == advance && s.description == Some(description)
    ensures s.dateCompleted == CompletionDate(r.dateCompleted, status, now)
  {
    r.(status := status, totalCost := cost, advanceTaken := advance, description := Some(description),
       dateCompleted := CompletionDate(r.dateCompleted, status, now))
  }

  /** Saving the same edits twice writes the same record as saving them once, whatever the second clock reads. */
  lemma SaveTwiceIsSaveOnce(r: Repair, status: string, cost: int, advance: int, description: string, now: int, later: int)
    ensures var once := SavedRepair(r, status, cost, advance, description, now);
      SavedRepair(once, status, cost, advance, description, later) == once
  {
  }

  /**
   * `sendWhatsAppMessage()`: nothing without a loaded repair, then the empty
   * contact check, then the `Out` check. The due figure is the stored cost
   * minus the stored advance, unclamped; the greeting is the name's string
   * template, which prints a missing name as `null`.
   */
  function MessageFor(current: Option<Repair>): (m: Message)
    ensures m.NothingLoaded? <==> current.None?
    ensures m.NoContact? <==> current.Some? && current.value.customerContact == []
    ensures m.Send? <==> current.Some? && current.value.customerContact != [] && current.value.status == StatusOut
    ensures m.Send? ==> && m.phone == "+91" + current.value.customerContact
                        && m.greeting == (if current.value.customerName.Some? then current.value.customerName.value else "null")
                        && m.totalCost == current.value.totalCost
                        && m.remainingDue == current.value.totalCost - current.value.advanceTaken
  {
    match current
    case None => NothingLoaded
    case Some(r) =>
      if r.customerContact == [] then NoContact
      else if r.status != StatusOut then NotOut
      else Send("+91" + r.customerContact, r.customerName.GetOr("null"), r.totalCost, r.totalCost - r.advanceTaken)
  }

  /** No screen rule bounds a stored advance, so a message can announce a negative amount due. */
  lemma MessageMayShowNegativeDue()
    ensures var r := Repair(3, None, "9800000000", None, None, None, None, 10000, 25000, StatusOut, 0, Some(5));
      && MessageFor(Some(r)).Send?
      && MessageFor(Some(r)).remainingDue == -15000
      && MessageFor(Some(r)).greeting == "null"
  {
  }

  class RepairDetailScreen {
    var currentRepair: Option<Repair>
    var descriptionText: string
    const amounts: AmountFields
    var selectedStatus: string

    /** The amount fields agree and the spinner shows one of its entries. */
    ghost predicate Valid()
      reads this, amounts
    {
      amounts.Valid() && selectedStatus in StatusOptions
    }

    /** `onCreate`: empty fields, the spinner on its first entry, nothing loaded. */
    constructor ()
      ensures Valid() && fresh(amounts)
      ensures currentRepair == None && descriptionText == [] && amounts.costText == [] && amounts.advanceText == []
      ensures selectedStatus == StatusIn && !amounts.advanceError
    {
      currentRepair := None;
      descriptionText := [];
      amounts := new AmountFields();
      selectedStatus := StatusOptions[0];
    }

    /** A new text in the description field; it has no watcher. */
    method EditDescription(text: string)
      requires Valid()
      modifies this`descriptionText
      ensures Valid()
      ensures descriptionText == text
    {
      descriptionText := text;
    }

    /** The user picks entry `i` of the spinner. */
    method SelectStatus(i: nat)
      requires Valid() && i < |StatusOptions|
      modifies this`selectedStatus
      ensures Valid()
      ensures selectedStatus == StatusOptions[i]
    {
      selectedStatus := StatusOptions[i];
    }

    /**
     * `bindDataToViews(repair)`: the description as stored (empty when
     * absent), the amounts shown with the advance clamped to the cost, and
     * the spinner moved only to a status it lists.
     */
    method Bind(repair: Repair)
      requires Valid()
      modifies this`descriptionText, this`selectedStatus, amounts
      ensures Valid()
      ensures descriptionText == repair.description.GetOr("")
      ensures amounts.Shows(repair.totalCost, repair.advanceTaken)
      ensures selectedStatus == if repair.status in StatusOptions then repair.status else old(selectedStatus)
    {
      descriptionText := repair.description.GetOr("");
      amounts.Bind(repair.totalCost, repair.advanceTaken);
      if repair.status in StatusOptions {
        selectedStatus := repair.status;
      }
    }

    /**
     * The observer of `getRepairById(id)`: the first non-null emission is
     * kept and bound; every later emission is ignored, so edits made
     * elsewhere after loading are not shown.
     */
    method Load(emitted: Option<Repair>)
      requires Valid()
      modifies this`currentRepair, this`descriptionText, this`selectedStatus, amounts
      ensures Valid()
      ensures old(currentRepair).None? && emitted.Some? ==>
        && currentRepair == emitted
        && descriptionText == emitted.value.description.GetOr("")
        && amounts.Shows(emitted.value.totalCost, emitted.value.advanceTaken)
      ensures old(currentRepair).Some? || emitted.None? ==>
        && currentRepair == old(currentRepair) && descriptionText == old(descriptionText)
        && selectedStatus == old(selectedStatus) && unchanged(amounts)
    {
      if emitted.Some? && currentRepair.None? {
        currentRepair := emitted;
        Bind(emitted.value);
      }
    }

    /**
     * `saveChanges()`. The raw cost and advance texts must be non-empty and
     * the trimmed description too; then, with a repair loaded, the status is
     * written into it, both texts go through `toDouble()` (which throws on
     * text it cannot read), the description and the completion date are set
     * and the record is passed to `update`.
     */
    method SaveChanges(repo: RepairRepository, now: int) returns (outcome: SaveOutcome)
      requires Valid() && repo.Valid()
      modifies this`currentRepair, repo.repairDao
      ensures Valid() && repo.Valid()
      ensures outcome.Refused? <==> amounts.costText == [] || amounts.advanceText == [] || Trim(descriptionText) == []
      ensures outcome.NoRecord? <==> !outcome.Refused? && old(currentRepair).None?
      ensures outcome.Crashed? <==> && !outcome.Refused? && old(currentRepair).Some?
                                    && (ParseAmount(amounts.costText).None? || ParseAmount(amounts.advanceText).None?)
      ensures outcome.Saved? ==>
        var r := SavedRepair(old(currentRepair).value, selectedStatus, ParseAmount(amounts.costText).value,
                             ParseAmount(amounts.advanceText).value, Trim(descriptionText), now);
        && currentRepair == Some(r)
        && repo.repairDao.State() == UpdateRow(old(repo.repairDao.State()), r, RepairId)
      ensures outcome.Refused? || outcome.NoRecord? ==> currentRepair == old(currentRepair)
      ensures outcome.Crashed? ==>
        var edited := old(currentRepair).value.(status := selectedStatus);
        currentRepair == Some(if ParseAmount(amounts.costText).None? then edited
                              else edited.(totalCost := ParseAmount(amounts.costText).value))
      ensures !outcome.Saved? ==> repo.repairDao.State() == old(repo.repairDao.State())
      ensures repo.orderDao.State() == old(repo.orderDao.State())
    {
      var description := Trim(descriptionText);
      if amounts.costText == [] || amounts.advanceText == [] || description == [] {
        return Refused;
      }
      if currentRepair.None? {
        return NoRecord;
      }
      var repair := currentRepair.value.(status := selectedStatus);
      currentRepair := Some(repair);
      var cost := ParseAmount(amounts.costText);
      if cost.None? {
        return Crashed;
      }
      repair := repair.(totalCost := cost.value);
      currentRepair := Some(repair);
      var advance := ParseAmount(amounts.advanceText);
      if advance.None? {
        return Crashed;
      }
      repair := repair.(advanceTaken := advance.value, description := Some(description));
      if selectedStatus == StatusOut && repair.dateCompleted.None? {
        repair := repair.(dateCompleted := Some(now));
      }
      currentRepair := Some(repair);
      repo.Update(repair);
      outcome := Saved;
    }

    /** The confirmed delete: the loaded repair's row goes, by its id; with nothing loaded nothing happens. */
    method Delete(repo: RepairRepository) returns (deleted: bool)
      requires Valid() && repo.Valid()
      modifies repo.repairDao
      ensures repo.Valid()
      ensures deleted <==> currentRepair.Some?
      ensures deleted ==> repo.repairDao.State() == DeleteRow(old(repo.repairDao.State()), currentRepair.value, RepairId)
      ensures deleted ==> !HasKey(repo.repairDao.rows, currentRepair.value.id, RepairId)
      ensures !deleted ==> repo.repairDao.State() == old(repo.repairDao.State())
    {
      deleted := currentRepair.Some?;
      if deleted {
        repo.Delete(currentRepair.value);
        DeleteRowValid(old(repo.repairDao.State()), currentRepair.value, RepairId);
      }
    }
  }
}
