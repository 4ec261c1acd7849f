/**
 * The queries of `OrderDao` over the rows of `orders_table`, in table (key)
 * order. Its writes are those of `Table.Store`.
 */
module OrderDao {

  import opened Wrappers
  import opened Records
  import opened Aggregate
  import opened Table
  import opened SqlLike

  /** `status = 'In' AND dateAdded BETWEEN :startDate AND :endDate`. */
  function InAddedIn(s: int, e: int): Order -> bool {
    (o: Order) => o.status == StatusIn && Between(o.dateAdded, s, e)
  }

  /** `status = 'Out' AND dateCompleted BETWEEN :startDate AND :endDate`. */
  function OutCompletedIn(s: int, e: int): Order -> bool {
    (o: Order) => o.status == StatusOut && InWindow(o.dateCompleted, s, e)
  }

  /** `status = 'Pending' AND dateAdded BETWEEN :startDate AND :endDate`. */
  function PendingAddedIn(s: int, e: int): Order -> bool {
    (o: Order) => o.status == StatusPending && Between(o.dateAdded, s, e)
  }

  function InOrPendingAddedIn(s: int, e: int): Order -> bool {
    (o: Order) => (o.status == StatusIn || o.status == StatusPending) && Between(o.dateAdded, s, e)
  }

  function AddedIn(s: int, e: int): Order -> bool {
    (o: Order) => Between(o.dateAdded, s, e)
  }

  /** The search's WHERE clause. */
  function Matches(q: string): Order -> bool {
    (o: Order) => NameOrContactLike(o.customerName, o.customerContact, q)
  }

  /** `IFNULL(SUM(CASE WHEN p THEN 1 ELSE 0 END), 0)` over the whole table. */
  function CaseCount(rows: seq<Order>, p: Order -> bool): (n: int)
    ensures n == Count(rows, p)
  {
    SqlSumOrZero(rows, Always(), Indicator(p));
    SumOfIndicator(rows, p);
    SqlSum(rows, Always(), Indicator(p)).GetOr(0)
  }

  /** `getOrderStats(startDate, endDate)`: three counts, each 0 rather than NULL over no rows. */
  function GetOrderStats(rows: seq<Order>, s: int, e: int): (st: OrderDashboardStats)
    ensures st.inCount == |set i | 0 <= i < |rows| && rows[i].status == StatusIn && Between(rows[i].dateAdded, s, e)|
    ensures st.outCount == |set i | 0 <= i < |rows| && rows[i].status == StatusOut && InWindow(rows[i].dateCompleted, s, e)|
    ensures st.pendingCount == |set i | 0 <= i < |rows| && rows[i].status == StatusPending && Between(rows[i].dateAdded, s, e)|
    ensures st.inCount >= 0 && st.outCount >= 0 && st.pendingCount >= 0
    ensures rows == [] ==> st == OrderDashboardStats(0, 0, 0)
  {
    CountIsMatchingSize(rows, InAddedIn(s, e));
    CountIsMatchingSize(rows, OutCompletedIn(s, e));
    CountIsMatchingSize(rows, PendingAddedIn(s, e));
    assert Matching(rows, InAddedIn(s, e))
      == set i | 0 <= i < |rows| && rows[i].status == StatusIn && Between(rows[i].dateAdded, s, e);
    assert Matching(rows, OutCompletedIn(s, e))
      == set i | 0 <= i < |rows| && rows[i].status == StatusOut && InWindow(rows[i].dateCompleted, s, e);
    assert Matching(rows, PendingAddedIn(s, e))
      == set i | 0 <= i < |rows| && rows[i].status == StatusPending && Between(rows[i].dateAdded, s, e);
    OrderDashboardStats(
      CaseCount(rows, InAddedIn(s, e)),
      CaseCount(rows, OutCompletedIn(s, e)),
      CaseCount(rows, PendingAddedIn(s, e)))
  }

  /** `In` and `Pending` exclude each other, so together they count no more orders than were added in the window. */
  lemma InAndPendingWithinAdded(rows: seq<Order>, s: int, e: int)
    ensures GetOrderStats(rows, s, e).inCount + GetOrderStats(rows, s, e).pendingCount
      <= |set i | 0 <= i < |rows| && Between(rows[i].dateAdded, s, e)|
  {
    CountSplit(rows, InOrPendingAddedIn(s, e), InAddedIn(s, e), PendingAddedIn(s, e));
    CountMonotone(rows, InOrPendingAddedIn(s, e), AddedIn(s, e));
    CountIsMatchingSize(rows, AddedIn(s, e));
    assert Matching(rows, AddedIn(s, e)) == set i | 0 <= i < |rows| && Between(rows[i].dateAdded, s, e);
  }

  /** `SELECT * FROM orders_table ORDER BY dateAdded DESC`: every order, newest first. */
  function AllOrders(rows: seq<Order>): (res: seq<Order>)
    ensures multiset(res) == multiset(rows)
    ensures NonIncreasing(res, OrderDateAdded)
  {
    SortDesc(rows, OrderDateAdded)
  }

  /** `searchOrders(q)`: the orders whose name or contact is LIKE `%q%`, newest first. */
  function SearchOrders(rows: seq<Order>, q: string): (res: seq<Order>)
    ensures NonIncreasing(res, OrderDateAdded)
    ensures forall i :: 0 <= i < |res| ==> res[i] in rows && NameOrContactLike(res[i].customerName, res[i].customerContact, q)
    ensures forall i :: 0 <= i < |rows| && NameOrContactLike(rows[i].customerName, rows[i].customerContact, q) ==> rows[i] in res
    ensures |res| == |set i | 0 <= i < |rows| && NameOrContactLike(rows[i].customerName, rows[i].customerContact, q)|
  {
    CountIsMatchingSize(rows, Matches(q));
    assert Matching(rows, Matches(q)) == set i | 0 <= i < |rows| && NameOrContactLike(rows[i].customerName, rows[i].customerContact, q);
    var found := Filter(rows, Matches(q));
    var res := SortDesc(found, OrderDateAdded);
    SameElements(res, found);
    res
  }

  /** An empty search text lists every order, as the unfiltered list does. */
  lemma EmptySearchIsAll(rows: seq<Order>)
    ensures SearchOrders(rows, "") == AllOrders(rows)
  {
    forall i | 0 <= i < |rows| ensures Matches("")(rows[i]) {
      EmptySearchMatchesAll(rows[i].customerName, rows[i].customerContact);
    }
    FilterAll(rows, Matches(""));
  }
}
