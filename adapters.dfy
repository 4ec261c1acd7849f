/**
 * The two list adapters, `RepairAdapter` and `OrderAdapter`: the texts a row
 * shows and the diff callbacks that match old and new rows. The two are the
 * same code over the two record types, so each rule is stated once over the
 * fields it reads and applied to both records.
 */
module Adapters {

  import opened Wrappers
  import opened Records
  import opened Text
  import opened Clock
  import opened Table

  /** The texts a row shows: its id line, the customer, the status chip and the days line. */
  datatype RowView = RowView(idText: string, nameText: string, statusText: string, daysText: string)

  /** A present, non-empty name is shown; otherwise the contact (`isNullOrEmpty()`). */
  function DisplayName(name: Option<string>, contact: string): (shown: string)
    ensures shown == contact <== name.None? || name.value == []
    ensures name.Some? && name.value != [] ==> shown == name.value
    ensures shown == [] ==> contact == []
  {
    if name.Some? && name.value != [] then name.value else contact
  }

  /**
   * `TimeUnit.MILLISECONDS.toDays(diff)`: whole days in `diff`, the division
   * truncated toward zero as Java's `Long` division is.
   */
  function WholeDays(diff: int): (days: int)
    ensures diff >= 0 ==> days >= 0 && days * DayMs <= diff < days * DayMs + DayMs
    ensures diff < 0 ==> days <= 0 && days * DayMs - DayMs < diff <= days * DayMs
  {
    if diff >= 0 then diff / DayMs else -((-diff) / DayMs)
  }

  /** The days line for a day count: `Today`, `1 day ago`, or the count and `days ago`. */
  function DaysText(days: int): string {
    if days == 0 then "Today"
    else if days == 1 then "1 day ago"
    else IntToString(days) + " days ago"
  }

  /** The days line of a row: `Completed` for an `Out` record, else the whole days since it was added. */
  function DaysLabel(status: string, dateAdded: int, now: int): (s: string)
    ensures status == StatusOut ==> s == "Completed"
    ensures status != StatusOut ==> s == DaysText(WholeDays(now - dateAdded))
  {
    if status == StatusOut then "Completed" else DaysText(WholeDays(now - dateAdded))
  }

  /**
   * What each days line means: `Completed` exactly for `Out`; otherwise
   * `Today` for less than a day either way from now, `1 day ago` for one to
   * two days back, and the number of whole days for anything else.
   */
  lemma DaysLabelMeaning(status: string, dateAdded: int, now: int)
    ensures var s := DaysLabel(status, dateAdded, now);
      var diff := now - dateAdded;
      && (s == "Completed" <==> status == StatusOut)
      && (s == "Today" <==> status != StatusOut && -DayMs < diff < DayMs)
      && (s == "1 day ago" <==> status != StatusOut && DayMs <= diff < 2 * DayMs)
  {
    var s := DaysLabel(status, dateAdded, now);
    var d := WholeDays(now - dateAdded);
    if status != StatusOut && d != 0 && d != 1 {
      var n := IntToString(d);
      assert s == n + " days ago";
      assert |s| == |n| + 9 >= 10;
    }
  }

  /**
   * A record at least two whole days old shows the count in decimal digits,
   * and those digits read back as the number of whole days since it was added.
   */
  lemma DaysCountReadsBack(status: string, dateAdded: int, now: int)
    requires status != StatusOut && now - dateAdded >= 2 * DayMs
    ensures var n := NatToString(WholeDays(now - dateAdded));
      && DaysLabel(status, dateAdded, now) == n + " days ago"
      && DigitsValue(n) == (now - dateAdded) / DayMs
  {
    DigitsValueOfNatToString(WholeDays(now - dateAdded));
  }

  /** A record dated a day or more ahead of the clock shows a negative count, such as `-1 days ago`. */
  lemma FutureDateShowsNegativeDays(status: string, now: int)
    requires status != StatusOut
    ensures DaysLabel(status, now + DayMs, now) == "-1 days ago"
  {
    assert WholeDays(-DayMs) == -1;
    assert NatToString(1) == "1";
  }

  /**
   * `bind`, `now` being `System.currentTimeMillis()`: the id line, the name
   * or else the contact, the status as stored, and the days line, which is
   * `Completed` exactly for `Out` and otherwise counts whole days since the
   * record was added.
   */
  function View(id: int, name: Option<string>, contact: string, status: string, dateAdded: int, now: int): (v: RowView)
    ensures v.idText == "ID: " + IntToString(id) && v.statusText == status
    ensures v.nameText == (if name.Some? && name.value != [] then name.value else contact)
    ensures status == StatusOut <==> v.daysText == "Completed"
    ensures status != StatusOut ==> v.daysText == DaysText(WholeDays(now - dateAdded))
  {
    DaysLabelMeaning(status, dateAdded, now);
    RowView("ID: " + IntToString(id), DisplayName(name, contact), status, DaysLabel(status, dateAdded, now))
  }

  /** `RepairViewHolder.bind(repair)`. */
  function RepairView(r: Repair, now: int): RowView {
    View(r.id, r.customerName, r.customerContact, r.status, r.dateAdded, now)
  }

  /** `OrderViewHolder.bind(order)`: the same texts from an order. */
  function OrderView(o: Order, now: int): RowView {
    View(o.id, o.customerName, o.customerContact, o.status, o.dateAdded, now)
  }

  /** `areItemsTheSame`: the same row is one with the same id. */
  predicate ItemsTheSame<R>(a: R, b: R, key: R -> int) {
    key(a) == key(b)
  }

  /** `areContentsTheSame`: data-class equality, every field equal. */
  predicate ContentsTheSame<R(==)>(a: R, b: R) {
    a == b
  }

  /**
   * Equal contents imply the same item, and among the rows of one table,
   * whose ids are distinct, the same item has equal contents.
   */
  lemma SameItemWithinTable<R>(rows: seq<R>, a: R, b: R, key: R -> int)
    requires DistinctKeys(rows, key) && a in rows && b in rows
    ensures ContentsTheSame(a, b) ==> ItemsTheSame(a, b, key)
    ensures ItemsTheSame(a, b, key) <==> ContentsTheSame(a, b)
  {
    DistinctKeysUniqueRows(rows, key);
  }

  /** An edited order is the same item with changed contents, so its row is redrawn in place. */
  lemma EditedOrderIsSameItem(o: Order, status: string)
    requires status != o.status
    ensures ItemsTheSame(o, o.(status := status), OrderId) && !ContentsTheSame(o, o.(status := status))
  {
  }
}
