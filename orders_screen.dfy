/**
 * `ViewOrdersActivity`: the order dashboard over a chosen period and the
 * order list or its search results.
 */
module OrdersDashboard {

  import opened Wrappers
  import opened Records
  import opened Text
  import opened Clock
  import opened Aggregate
  import opened OrderDao
  import opened Periods

  const Today := "Today"
  const Yesterday := "Yesterday"
  const Last7Days := "Last 7 Days"
  const Last30Days := "Last 30 Days"
  const Last1Year := "Last 1 Year"
  const AllTime := "All Time"
  const CustomRangeItem := "Custom Range..."
  /** The labels `updateDashboardForPeriod` has a branch for; every other one, "All Time" too, takes the last branch. */
  const KnownPeriods := {Today, Yesterday, Last7Days, Last30Days, Last1Year}

  /** The three counts `observeStats` shows. */
  datatype ShownCounts = ShownCounts(inCount: int, outCount: int, pendingCount: int)

  /** `observeStats`: a missing emission shows as three zeros. */
  function ShowOrderStats(stats: Option<OrderDashboardStats>): (v: ShownCounts)
    ensures stats.None? ==> v == ShownCounts(0, 0, 0)
    ensures stats.Some? ==>
      v.inCount == stats.value.inCount && v.outCount == stats.value.outCount && v.pendingCount == stats.value.pendingCount
  {
    match stats
    case None => ShownCounts(0, 0, 0)
    case Some(st) => ShownCounts(st.inCount, st.outCount, st.pendingCount)
  }

  /**
   * Over a table the shown figures are the three status counts of the
   * window, never negative, and the `In` and `Pending` ones together do not
   * exceed the orders added in it.
   */
  lemma ShownCountsOfTable(rows: seq<Order>, s: int, e: int)
    ensures var v := ShowOrderStats(Some(GetOrderStats(rows, s, e)));
      && v.inCount == Count(rows, InAddedIn(s, e))
      && v.outCount == Count(rows, OutCompletedIn(s, e))
      && v.pendingCount == Count(rows, PendingAddedIn(s, e))
      && v.inCount >= 0 && v.outCount >= 0 && v.pendingCount >= 0
      && v.inCount + v.pendingCount <= Count(rows, AddedIn(s, e))
  {
    InAndPendingWithinAdded(rows, s, e);
  }

  /**
   * `updateDashboardForPeriod(period)`: "Today" sets hour, minute and second
   * of the current reading to 0; "Yesterday" does the same a day back and
   * ends at 23:59:59 of that day; the week, month and year periods move the
   * start back; any other label, "All Time" among them, starts at 0. Every
   * window but "Yesterday" ends now. `oneYearAgo` is the calendar's
   * `add(YEAR, -1)` of `now`.
   */
  function OrdersWindow(period: string, now: int, oneYearAgo: int): (w: Window)
    ensures w.endDate == now || period == Yesterday
    ensures period !in KnownPeriods ==> w == Window(0, now)
  {
    if period == Today then Window(SetSecond(SetMinute(SetHourOfDay(now, 0), 0), 0), now)
    else if period == Yesterday then
      var y := AddDays(now, -1);
      Window(SetSecond(SetMinute(SetHourOfDay(y, 0), 0), 0), SetSecond(SetMinute(SetHourOfDay(y, 23), 59), 59))
    else if period == Last7Days then Window(AddDays(now, -7), now)
    else if period == Last30Days then Window(AddDays(now, -30), now)
    else if period == Last1Year then Window(oneYearAgo, now)
    else Window(0, now)
  }

  /**
   * "Today" starts at 00:00:00 of the current day, keeping the millisecond
   * of the reading, and ends now: it holds the instants of today from that
   * start on.
   */
  lemma TodayWindow(now: int, oneYearAgo: int, t: int)
    ensures var w := OrdersWindow(Today, now, oneYearAgo);
      && w.startDate == StartOfDay(now) + MilliOfSecond(now)
      && (InRange(t, w) <==> DayOf(t) == DayOf(now) && StartOfDay(now) + MilliOfSecond(now) <= t <= now)
  {
    var w := OrdersWindow(Today, now, oneYearAgo);
    Decompose(now);
    Decompose(w.startDate);
    StartOfDayValue(now);
    DayRange(t);
    DayRange(now);
  }

  /**
   * "Yesterday" runs from 00:00:00 to 23:59:59 of the previous day, both
   * keeping the millisecond of the reading: it lies within that day and
   * spans a day less one second.
   */
  lemma YesterdayWindow(now: int, oneYearAgo: int)
    ensures var w := OrdersWindow(Yesterday, now, oneYearAgo);
      && w.startDate == StartOfDay(AddDays(now, -1)) + MilliOfSecond(now)
      && DayOf(w.startDate) == DayOf(now) - 1 && DayOf(w.endDate) == DayOf(now) - 1
      && w.endDate - w.startDate == DayMs - SecondMs
  {
    var y := AddDays(now, -1);
    var w := OrdersWindow(Yesterday, now, oneYearAgo);
    Decompose(y);
    Decompose(w.startDate);
    Decompose(w.endDate);
    StartOfDayValue(y);
  }

  /** The list the search box selects: every order for an empty text, else the search results. */
  function ShownOrders(query: string, rows: seq<Order>): (res: seq<Order>)
    ensures res == SearchOrders(rows, query)
  {
    if query == [] then
      EmptySearchIsAll(rows);
      AllOrders(rows)
    else SearchOrders(rows, query)
  }

  class OrdersScreen {
    /** The text of the period button. */
    var filterLabel: string
    /** The window of the counts being observed. */
    var statsWindow: Window
    /** The text of the search box. */
    var query: string

    /** `onCreate`: the list unfiltered and the counts of all time; the button keeps its layout text. */
    constructor (initialLabel: string, now: int)
      ensures filterLabel == initialLabel && query == []
      ensures statsWindow == Window(0, now)
    {
      filterLabel := initialLabel;
      query := [];
      statsWindow := Window(now, now);
      new;
      UpdateDashboardForPeriod(AllTime, now, now);
    }

    /** `updateDashboardForPeriod(period)`; `now` is the calendar's reading, also taken for the end of yesterday. */
    method UpdateDashboardForPeriod(period: string, now: int, oneYearAgo: int)
      modifies this`statsWindow
      ensures statsWindow == OrdersWindow(period, now, oneYearAgo)
    {
      var calendar := now;
      var endDate := calendar;
      var startDate: int;
      if period == Today {
        calendar := SetHourOfDay(calendar, 0);
        calendar := SetMinute(calendar, 0);
        calendar := SetSecond(calendar, 0);
        startDate := calendar;
      } else if period == Yesterday {
        calendar := AddDays(calendar, -1);
        calendar := SetHourOfDay(calendar, 0);
        calendar := SetMinute(calendar, 0);
        calendar := SetSecond(calendar, 0);
        startDate := calendar;
        var endOfYesterday := AddDays(now, -1);
        endOfYesterday := SetHourOfDay(endOfYesterday, 23);
        endOfYesterday := SetMinute(endOfYesterday, 59);
        endOfYesterday := SetSecond(endOfYesterday, 59);
        endDate := endOfYesterday;
      } else if period == Last7Days {
        calendar := AddDays(calendar, -7);
        startDate := calendar;
      } else if period == Last30Days {
        calendar := AddDays(calendar, -30);
        startDate := calendar;
      } else if period == Last1Year {
        startDate := oneYearAgo;
      } else {
        startDate := 0;
      }
      statsWindow := Window(startDate, endDate);
    }

    /** A pick from the period menu: the custom entry opens a picker that does nothing. */
    method SelectPeriod(period: string, now: int, oneYearAgo: int)
      modifies this`filterLabel, this`statsWindow
      ensures period == CustomRangeItem ==> filterLabel == old(filterLabel) && statsWindow == old(statsWindow)
      ensures period != CustomRangeItem ==> filterLabel == period && statsWindow == OrdersWindow(period, now, oneYearAgo)
    {
      if period != CustomRangeItem {
        filterLabel := period;
        UpdateDashboardForPeriod(period, now, oneYearAgo);
      }
    }

    /** The refresh action: the button's period again, or all time after a custom range. */
    method Refresh(now: int, oneYearAgo: int)
      modifies this`statsWindow
      ensures statsWindow == OrdersWindow(RefreshPeriod(filterLabel, AllTime), now, oneYearAgo)
      ensures ContainsText(filterLabel, RangeSeparator) ==> statsWindow == Window(0, now)
    {
      UpdateDashboardForPeriod(RefreshPeriod(filterLabel, AllTime), now, oneYearAgo);
    }

    /** A change of the search text swaps the observed list. */
    method Search(text: string)
      modifies this`query
      ensures query == text
    {
      query := text;
    }
  }
}
