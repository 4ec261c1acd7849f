/**
 * The queries of `RepairDao` over the rows of `repairs_table`, in table
 * (key) order. Its writes are those of `Table.Store`.
 */
module RepairDao {

  import opened Wrappers
  import opened Records
  import opened Aggregate
  import opened Table
  import opened SqlLike

  // ---- the WHERE clauses and summands of the stats query ----

  /** `dateAdded BETWEEN :startDate AND :endDate`. */
  function AddedIn(s: int, e: int): Repair -> bool {
    (r: Repair) => Between(r.dateAdded, s, e)
  }

  /** `status = 'Out' AND dateCompleted BETWEEN :startDate AND :endDate`. */
  function CompletedOutIn(s: int, e: int): Repair -> bool {
    (r: Repair) => r.status == StatusOut && InWindow(r.dateCompleted, s, e)
  }

  /** `status != 'Out' AND dateAdded BETWEEN :startDate AND :endDate`. */
  function UnfinishedAddedIn(s: int, e: int): Repair -> bool {
    (r: Repair) => r.status != StatusOut && Between(r.dateAdded, s, e)
  }

  /** Repairs added in the window that are now `Out`: the part of the estimate the two pending sums miss. */
  function OutAddedIn(s: int, e: int): Repair -> bool {
    (r: Repair) => r.status == StatusOut && Between(r.dateAdded, s, e)
  }

  /** `status = 'In' OR status = 'Pending'`, in the window by date added. */
  function InOrPendingAddedIn(s: int, e: int): Repair -> bool {
    (r: Repair) => (r.status == StatusIn || r.status == StatusPending) && Between(r.dateAdded, s, e)
  }

  function IsPending(): Repair -> bool {
    (r: Repair) => r.status == StatusPending
  }

  /** The search's WHERE clause. */
  function Matches(q: string): Repair -> bool {
    (r: Repair) => NameOrContactLike(r.customerName, r.customerContact, q)
  }

  function Cost(): Repair -> int {
    (r: Repair) => r.totalCost
  }

  function Advance(): Repair -> int {
    (r: Repair) => r.advanceTaken
  }

  function Due(): Repair -> int {
    (r: Repair) => r.totalCost - r.advanceTaken
  }

  /** `getStats(startDate, endDate)`: six independent sub-selects over the table. */
  function GetStats(rows: seq<Repair>, s: int, e: int): (st: DashboardStats)
    ensures st.inCount == |set i | 0 <= i < |rows| && Between(rows[i].dateAdded, s, e)|
    ensures st.outCount == |set i | 0 <= i < |rows| && rows[i].status == StatusOut && InWindow(rows[i].dateCompleted, s, e)|
    ensures st.estimatedRevenue.None? <==> st.inCount == 0
    ensures st.revenueFromOut.None? <==> st.outCount == 0
    ensures st.advanceFromPending.None? <==> st.upcomingRevenue.None?
    ensures st.advanceFromPending.None? <==>
      forall i :: 0 <= i < |rows| ==> !(rows[i].status != StatusOut && Between(rows[i].dateAdded, s, e))
    ensures st.estimatedRevenue.Some? ==> st.estimatedRevenue.value == Sum(rows, AddedIn(s, e), Cost())
    ensures st.revenueFromOut.Some? ==> st.revenueFromOut.value == Sum(rows, CompletedOutIn(s, e), Cost())
    ensures st.advanceFromPending.Some? ==> st.advanceFromPending.value == Sum(rows, UnfinishedAddedIn(s, e), Advance())
    ensures st.upcomingRevenue.Some? ==> st.upcomingRevenue.value == Sum(rows, UnfinishedAddedIn(s, e), Due())
    ensures st.advanceFromPending.Some? ==>
      st.advanceFromPending.value + st.upcomingRevenue.value == Sum(rows, UnfinishedAddedIn(s, e), Cost())
  {
    CountIsMatchingSize(rows, AddedIn(s, e));
    CountIsMatchingSize(rows, CompletedOutIn(s, e));
    assert Matching(rows, AddedIn(s, e)) == set i | 0 <= i < |rows| && Between(rows[i].dateAdded, s, e);
    assert Matching(rows, CompletedOutIn(s, e))
      == set i | 0 <= i < |rows| && rows[i].status == StatusOut && InWindow(rows[i].dateCompleted, s, e);
    SumAdditive(rows, UnfinishedAddedIn(s, e), Cost(), Advance(), Due());
    DashboardStats(
      Count(rows, AddedIn(s, e)),
      Count(rows, CompletedOutIn(s, e)),
      SqlSum(rows, AddedIn(s, e), Cost()),
      SqlSum(rows, UnfinishedAddedIn(s, e), Advance()),
      SqlSum(rows, CompletedOutIn(s, e), Cost()),
      SqlSum(rows, UnfinishedAddedIn(s, e), Due()))
  }

  /**
   * With absent sums read as 0, the estimate is the advances plus the dues of
   * the repairs not yet `Out`, plus the full cost of those added in the window
   * and already `Out`.
   */
  lemma EstimateSplits(rows: seq<Repair>, s: int, e: int)
    ensures var st := GetStats(rows, s, e);
      st.estimatedRevenue.GetOr(0)
      == st.advanceFromPending.GetOr(0) + st.upcomingRevenue.GetOr(0) + Sum(rows, OutAddedIn(s, e), Cost())
  {
    SqlSumOrZero(rows, AddedIn(s, e), Cost());
    SqlSumOrZero(rows, UnfinishedAddedIn(s, e), Advance());
    SqlSumOrZero(rows, UnfinishedAddedIn(s, e), Due());
    SumSplit(rows, AddedIn(s, e), UnfinishedAddedIn(s, e), OutAddedIn(s, e), Cost());
    SumAdditive(rows, UnfinishedAddedIn(s, e), Cost(), Advance(), Due());
  }

  /**
   * Adding a row changes the two counts exactly when it falls in their
   * windows, both bounds included; a row with no `dateCompleted` never adds
   * to the `Out` count.
   */
  lemma StatsOfAppendedRow(rows: seq<Repair>, r: Repair, s: int, e: int)
    ensures GetStats(rows + [r], s, e).inCount
      == GetStats(rows, s, e).inCount + (if s <= r.dateAdded <= e then 1 else 0)
    ensures GetStats(rows + [r], s, e).outCount
      == GetStats(rows, s, e).outCount + (if r.status == StatusOut && r.dateCompleted.Some? && s <= r.dateCompleted.value <= e then 1 else 0)
  {
    CountAppend(rows, r, AddedIn(s, e));
    CountAppend(rows, r, CompletedOutIn(s, e));
  }

  /**
   * The pending sums range over `status != 'Out'`; when every status is one
   * of the spinner's three they are the sums over `In` and `Pending` repairs.
   */
  lemma PendingSumsOverInAndPending(rows: seq<Repair>, s: int, e: int)
    requires forall i :: 0 <= i < |rows| ==> rows[i].status in StatusOptions
    ensures GetStats(rows, s, e).advanceFromPending == SqlSum(rows, InOrPendingAddedIn(s, e), Advance())
    ensures GetStats(rows, s, e).upcomingRevenue == SqlSum(rows, InOrPendingAddedIn(s, e), Due())
  {
    AgreeingAggregates(rows, UnfinishedAddedIn(s, e), InOrPendingAddedIn(s, e), Advance(), Advance());
    AgreeingAggregates(rows, UnfinishedAddedIn(s, e), InOrPendingAddedIn(s, e), Due(), Due());
  }

  /**
   * `revenueFromOut` counts by completion date and `estimatedRevenue` by the
   * date added, so money collected in a window can exceed the window's
   * estimate even when no advance exceeds its cost: here a repair added
   * before the window and completed inside it.
   */
  lemma CollectedMayExceedEstimate()
    ensures var r := Repair(1, None, "9800000000", None, None, None, None, 10000, 0, StatusOut, 0, Some(10));
      var st := GetStats([r], 5, 20);
      && r.advanceTaken <= r.totalCost
      && st.estimatedRevenue == None && st.advanceFromPending == None
      && st.revenueFromOut == Some(10000)
  {
    var r := Repair(1, None, "9800000000", None, None, None, None, 10000, 0, StatusOut, 0, Some(10));
    CountAppend([], r, AddedIn(5, 20));
    CountAppend([], r, UnfinishedAddedIn(5, 20));
    CountAppend([], r, CompletedOutIn(5, 20));
    SumAppend([], r, CompletedOutIn(5, 20), Cost());
    assert [] + [r] == [r];
  }

  /**
   * Two unfinished repairs of 1000 and 500 with advances of 200 and 0, and
   * one of 800 paid in full and completed, all in the window: the estimate is
   * 2300, the pending advances 200, the `Out` revenue 800, and the upcoming
   * revenue 1300, the dues of the two unfinished repairs.
   */
  lemma ThreeRepairStats()
    ensures var a := Repair(1, None, "1", None, None, None, None, 100000, 20000, StatusIn, 5, None);
      var b := Repair(2, None, "2", None, None, None, None, 50000, 0, StatusIn, 5, None);
      var c := Repair(3, None, "3", None, None, None, None, 80000, 80000, StatusOut, 5, Some(5));
      var st := GetStats([a, b, c], 0, 10);
      && st.inCount == 3 && st.outCount == 1
      && st.estimatedRevenue == Some(230000) && st.advanceFromPending == Some(20000)
      && st.revenueFromOut == Some(80000) && st.upcomingRevenue == Some(130000)
  {
    var a := Repair(1, None, "1", None, None, None, None, 100000, 20000, StatusIn, 5, None);
    var b := Repair(2, None, "2", None, None, None, None, 50000, 0, StatusIn, 5, None);
    var c := Repair(3, None, "3", None, None, None, None, 80000, 80000, StatusOut, 5, Some(5));
    AppendStats([], a, 0, 10);
    AppendStats([a], b, 0, 10);
    AppendStats([a, b], c, 0, 10);
    assert [] + [a] == [a] && [a] + [b] == [a, b] && [a, b] + [c] == [a, b, c];
  }

  /** The counts and sums of the stats query over a table with one more row. */
  lemma AppendStats(rows: seq<Repair>, r: Repair, s: int, e: int)
    ensures Count(rows + [r], AddedIn(s, e)) == Count(rows, AddedIn(s, e)) + (if AddedIn(s, e)(r) then 1 else 0)
    ensures Count(rows + [r], CompletedOutIn(s, e)) == Count(rows, CompletedOutIn(s, e)) + (if CompletedOutIn(s, e)(r) then 1 else 0)
    ensures Count(rows + [r], UnfinishedAddedIn(s, e)) == Count(rows, UnfinishedAddedIn(s, e)) + (if UnfinishedAddedIn(s, e)(r) then 1 else 0)
    ensures Sum(rows + [r], AddedIn(s, e), Cost()) == Sum(rows, AddedIn(s, e), Cost()) + (if AddedIn(s, e)(r) then r.totalCost else 0)
    ensures Sum(rows + [r], CompletedOutIn(s, e), Cost()) == Sum(rows, CompletedOutIn(s, e), Cost()) + (if CompletedOutIn(s, e)(r) then r.totalCost else 0)
    ensures Sum(rows + [r], UnfinishedAddedIn(s, e), Advance()) == Sum(rows, UnfinishedAddedIn(s, e), Advance()) + (if UnfinishedAddedIn(s, e)(r) then r.advanceTaken else 0)
    ensures Sum(rows + [r], UnfinishedAddedIn(s, e), Due()) == Sum(rows, UnfinishedAddedIn(s, e), Due()) + (if UnfinishedAddedIn(s, e)(r) then r.totalCost - r.advanceTaken else 0)
  {
    CountAppend(rows, r, AddedIn(s, e));
    CountAppend(rows, r, CompletedOutIn(s, e));
    CountAppend(rows, r, UnfinishedAddedIn(s, e));
    SumAppend(rows, r, AddedIn(s, e), Cost());
    SumAppend(rows, r, CompletedOutIn(s, e), Cost());
    SumAppend(rows, r, UnfinishedAddedIn(s, e), Advance());
    SumAppend(rows, r, UnfinishedAddedIn(s, e), Due());
  }

  /** `getPendingCount()`: every `Pending` repair, with no date window. */
  function PendingCount(rows: seq<Repair>): (n: int)
    ensures n == |set i | 0 <= i < |rows| && rows[i].status == StatusPending|
  {
    CountIsMatchingSize(rows, IsPending());
    assert Matching(rows, IsPending()) == set i | 0 <= i < |rows| && rows[i].status == StatusPending;
    Count(rows, IsPending())
  }

  /** `SELECT * FROM repairs_table ORDER BY dateAdded DESC`: every repair, newest first. */
  function AllRepairsOrderedByDate(rows: seq<Repair>): (res: seq<Repair>)
    ensures multiset(res) == multiset(rows)
    ensures NonIncreasing(res, RepairDateAdded)
  {
    SortDesc(rows, RepairDateAdded)
  }

  /** `searchDatabase(q)`: the repairs whose name or contact is LIKE `%q%`, newest first. */
  function SearchDatabase(rows: seq<Repair>, q: string): (res: seq<Repair>)
    ensures NonIncreasing(res, RepairDateAdded)
    ensures forall i :: 0 <= i < |res| ==> res[i] in rows && NameOrContactLike(res[i].customerName, res[i].customerContact, q)
    ensures forall i :: 0 <= i < |rows| && NameOrContactLike(rows[i].customerName, rows[i].customerContact, q) ==> rows[i] in res
    ensures |res| == |set i | 0 <= i < |rows| && NameOrContactLike(rows[i].customerName, rows[i].customerContact, q)|
  {
    CountIsMatchingSize(rows, Matches(q));
    assert Matching(rows, Matches(q)) == set i | 0 <= i < |rows| && NameOrContactLike(rows[i].customerName, rows[i].customerContact, q);
    var found := Filter(rows, Matches(q));
    var res := SortDesc(found, RepairDateAdded);
    SameElements(res, found);
    res
  }

  /** An empty search text lists every repair, as the unfiltered list does. */
  lemma EmptySearchIsAll(rows: seq<Repair>)
    ensures SearchDatabase(rows, "") == AllRepairsOrderedByDate(rows)
  {
    forall i | 0 <= i < |rows| ensures Matches("")(rows[i]) {
      EmptySearchMatchesAll(rows[i].customerName, rows[i].customerContact);
    }
    FilterAll(rows, Matches(""));
  }
}
