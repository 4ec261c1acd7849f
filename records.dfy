/**
 * The stored records (`repairs_table`, `orders_table`) and the two stats
 * holders the dashboards read. Money is held in hundredths of a rupee and
 * timestamps in epoch milliseconds; an id of 0 means "not yet assigned".
 */
module Records {

  import opened Wrappers

  /** The values of the status spinner; records themselves may hold any text. */
  const StatusIn := "In"
  const StatusPending := "Pending"
  const StatusOut := "Out"
  const StatusOptions := [StatusIn, StatusPending, StatusOut]

  datatype Repair = Repair(
    id: int,
    customerName: Option<string>,
    customerContact: string,
    alternateContact: Option<string>,
    imeiNumber: Option<string>,
    description: Option<string>,
    imagePath: Option<string>,
    totalCost: int,
    advanceTaken: int,
    status: string,
    dateAdded: int,
    dateCompleted: Option<int>)

  datatype Order = Order(
    id: int,
    customerName: Option<string>,
    customerContact: string,
    imagePath: Option<string>,
    description: Option<string>,
    totalCost: int,
    advanceTaken: int,
    status: string,
    dateAdded: int,
    dateCompleted: Option<int>)

  /** The repair dashboard: two counts and four sums, each NULL over no rows. */
  datatype DashboardStats = DashboardStats(
    inCount: int,
    outCount: int,
    estimatedRevenue: Option<int>,
    advanceFromPending: Option<int>,
    revenueFromOut: Option<int>,
    upcomingRevenue: Option<int>)

  /** The orders dashboard: three counts and no money. */
  datatype OrderDashboardStats = OrderDashboardStats(inCount: int, outCount: int, pendingCount: int)

  function RepairId(r: Repair): int { r.id }
  function WithRepairId(r: Repair, n: int): Repair { r.(id := n) }
  function RepairDateAdded(r: Repair): int { r.dateAdded }

  function OrderId(o: Order): int { o.id }
  function WithOrderId(o: Order, n: int): Order { o.(id := n) }
  function OrderDateAdded(o: Order): int { o.dateAdded }

  /** `t BETWEEN s AND e`: both bounds included. */
  predicate Between(t: int, s: int, e: int) {
    s <= t <= e
  }

  /** `t BETWEEN s AND e` for a nullable column: NULL is never in a window. */
  predicate InWindow(t: Option<int>, s: int, e: int) {
    t.Some? && Between(t.value, s, e)
  }
}
