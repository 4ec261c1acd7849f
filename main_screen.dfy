/**
 * `MainActivity`: the repair dashboard over a chosen period, the repair list
 * or its search results, and backup and restore of the repairs.
 */
module Dashboard {

  import opened Wrappers
  import opened Records
  import opened Text
  import opened Clock
  import opened Aggregate
  import opened Table
  import opened RepairDao
  import opened Repository
  import opened Periods

  const Today := "Today"
  const Yesterday := "Yesterday"
  const Last7Days := "Last 7 Days"
  const Last30Days := "Last 30 Days"
  const Last5Years := "Last 5 Years"
  const CustomRangeItem := "Custom Range..."
  /** The labels `updateDashboardForPeriod` has a branch for. */
  const KnownPeriods := {Today, Yesterday, Last7Days, Last30Days, Last5Years}

  // ---- the figures `observeStats` shows ----

  /** The five figures of the repair dashboard, in hundredths where they are money. */
  datatype ShownStats = ShownStats(inCount: int, outCount: int, estimatedRevenue: int, actualRevenue: int, upcomingRevenue: int)

  /**
   * `observeStats`: a missing emission or a missing sum shows as 0, and the
   * collected revenue is the pending advances plus the `Out` revenue, each
   * read as 0 when absent.
   */
  function ShowStats(stats: Option<DashboardStats>): (v: ShownStats)
    ensures stats.None? ==> v == ShownStats(0, 0, 0, 0, 0)
    ensures stats.Some? ==>
      && v.inCount == stats.value.inCount && v.outCount == stats.value.outCount
      && v.estimatedRevenue == stats.value.estimatedRevenue.GetOr(0)
      && v.actualRevenue == stats.value.advanceFromPending.GetOr(0) + stats.value.revenueFromOut.GetOr(0)
      && v.upcomingRevenue == stats.value.upcomingRevenue.GetOr(0)
  {
    match stats
    case None => ShownStats(0, 0, 0, 0, 0)
    case Some(st) =>
      var advanceFromPending := st.advanceFromPending.GetOr(0);
      var revenueFromOut := st.revenueFromOut.GetOr(0);
      ShownStats(st.inCount, st.outCount, st.estimatedRevenue.GetOr(0), advanceFromPending + revenueFromOut,
                 st.upcomingRevenue.GetOr(0))
  }

  /**
   * Over a table the shown figures are plain sums: the estimate over the
   * repairs added in the window, the collected revenue over the advances of
   * those not yet `Out` and the costs of those completed in it, and the
   * upcoming revenue over the dues of those not yet `Out`.
   */
  lemma ShownStatsAreSums(rows: seq<Repair>, s: int, e: int)
    ensures var v := ShowStats(Some(GetStats(rows, s, e)));
      && v.inCount == Count(rows, AddedIn(s, e))
      && v.outCount == Count(rows, CompletedOutIn(s, e))
      && v.estimatedRevenue == Sum(rows, AddedIn(s, e), Cost())
      && v.actualRevenue == Sum(rows, UnfinishedAddedIn(s, e), Advance()) + Sum(rows, CompletedOutIn(s, e), Cost())
      && v.upcomingRevenue == Sum(rows, UnfinishedAddedIn(s, e), Due())
  {
    SqlSumOrZero(rows, AddedIn(s, e), Cost());
    SqlSumOrZero(rows, UnfinishedAddedIn(s, e), Advance());
    SqlSumOrZero(rows, CompletedOutIn(s, e), Cost());
    SqlSumOrZero(rows, UnfinishedAddedIn(s, e), Due());
  }

  /** An empty table shows zeros, though every sum of its stats is absent. */
  lemma EmptyTableShowsZeros(s: int, e: int)
    ensures GetStats([], s, e).estimatedRevenue.None?
    ensures ShowStats(Some(GetStats([], s, e))) == ShownStats(0, 0, 0, 0, 0)
  {
    ShownStatsAreSums([], s, e);
  }

  // ---- the period windows ----

  /**
   * `updateDashboardForPeriod` as written: "Today" sets only the hour of the
   * current instant to 0, "Yesterday" does the same a day back and ends at
   * 23:59:59 of that day, the other known periods move the start back, and
   * any other label leaves start and end at the same reading.
   * `fiveYearsAgo` is the calendar's `add(YEAR, -5)` of `now`.
   */
  function AsWrittenMainWindow(period: string, now: int, fiveYearsAgo: int): (w: Window)
    ensures w.endDate == now || period == Yesterday
    ensures period !in KnownPeriods ==> w == Window(now, now)
  {
    if period == Today then Window(SetHourOfDay(now, 0), now)
    else if period == Yesterday then
      Window(SetHourOfDay(AddDays(now, -1), 0), SetSecond(SetMinute(SetHourOfDay(AddDays(now, -1), 23), 59), 59))
    else if period == Last7Days then Window(AddDays(now, -7), now)
    else if period == Last30Days then Window(AddDays(now, -30), now)
    else if period == Last5Years then Window(fiveYearsAgo, now)
    else Window(now, now)
  }

  /**
   * As written, "Today" keeps the current minute, second and millisecond, so
   * unless the clock reads an exact hour the window starts after midnight
   * and a repair added at midnight today is not counted; "Yesterday" misses
   * the same stretch of the previous day.
   */
  lemma AsWrittenDayWindowsMissMidnight(now: int)
    requires MinuteOfHour(now) > 0 || SecondOfMinute(now) > 0 || MilliOfSecond(now) > 0
    ensures var midnight := StartOfDay(now);
      DayOf(midnight) == DayOf(now) && midnight <= now && !InRange(midnight, AsWrittenMainWindow(Today, now, 0))
    ensures var midnight := StartOfDay(AddDays(now, -1));
      DayOf(midnight) == DayOf(now) - 1 && !InRange(midnight, AsWrittenMainWindow(Yesterday, now, 0))
  {
    Decompose(now);
    StartOfDayValue(now);
    var y := AddDays(now, -1);
    Decompose(y);
    StartOfDayValue(y);
  }

  /**
   * The windows as intended: "Today" from local midnight to now, "Yesterday"
   * the whole previous day, the other known periods back from now, and any
   * other label a window of one instant.
   */
  function MainWindow(period: string, now: int, fiveYearsAgo: int): (w: Window)
    ensures w.endDate == now || period == Yesterday
    ensures period !in KnownPeriods ==> w == Window(now, now)
  {
    if period == Today then Window(StartOfDay(now), now)
    else if period == Yesterday then Window(StartOfDay(AddDays(now, -1)), StartOfDay(now) - 1)
    else if period == Last7Days then Window(AddDays(now, -7), now)
    else if period == Last30Days then Window(AddDays(now, -30), now)
    else if period == Last5Years then Window(fiveYearsAgo, now)
    else Window(now, now)
  }

  /** "Today" covers exactly the instants of the current day up to now. */
  lemma TodayWindowIsToday(now: int, fiveYearsAgo: int, t: int)
    ensures InRange(t, MainWindow(Today, now, fiveYearsAgo)) <==> DayOf(t) == DayOf(now) && t <= now
  {
    StartOfDayValue(now);
    DayRange(t);
    DayRange(now);
  }

  /** "Yesterday" covers exactly the instants of the previous day. */
  lemma YesterdayWindowIsYesterday(now: int, fiveYearsAgo: int, t: int)
    ensures InRange(t, MainWindow(Yesterday, now, fiveYearsAgo)) <==> DayOf(t) == DayOf(now) - 1
  {
    StartOfDayValue(now);
    StartOfDayValue(AddDays(now, -1));
    DayRange(t);
  }

  /**
   * The week and month windows, as written, start the same time of day 7 or
   * 30 days back and end now; only "Today" and "Yesterday" differ between the
   * windows as written and as intended.
   */
  lemma DaysBackWindows(now: int, fiveYearsAgo: int)
    ensures var w := AsWrittenMainWindow(Last7Days, now, fiveYearsAgo);
      DayOf(w.startDate) == DayOf(now) - 7 && w.endDate == now && w.endDate - w.startDate == 7 * DayMs
    ensures var w := AsWrittenMainWindow(Last30Days, now, fiveYearsAgo);
      DayOf(w.startDate) == DayOf(now) - 30 && w.endDate == now && w.endDate - w.startDate == 30 * DayMs
    ensures forall period :: period != Today && period != Yesterday ==>
      AsWrittenMainWindow(period, now, fiveYearsAgo) == MainWindow(period, now, fiveYearsAgo)
  {
    Decompose(now);
    Decompose(AddDays(now, -7));
    Decompose(AddDays(now, -30));
  }

  /**
   * The custom range: the start day from 00:00:00 and the end day to
   * 23:59:59, each keeping the millisecond its calendar was read at; a range
   * that ends before it starts is refused. `startMs` and `endMs` are those
   * milliseconds.
   */
  function CustomRange(startDay: int, startMs: int, endDay: int, endMs: int): (w: Option<Window>)
    requires 0 <= startMs < 1000 && 0 <= endMs < 1000
    ensures w.Some? <==> startDay <= endDay
    ensures w.Some? ==>
      && DayOf(w.value.startDate) == startDay && HourOfDay(w.value.startDate) == 0
      && MinuteOfHour(w.value.startDate) == 0 && SecondOfMinute(w.value.startDate) == 0
      && DayOf(w.value.endDate) == endDay && HourOfDay(w.value.endDate) == 23
      && MinuteOfHour(w.value.endDate) == 59 && SecondOfMinute(w.value.endDate) == 59
  {
    var startDate := Compose(startDay, 0, 0, 0, startMs);
    var endDate := Compose(endDay, 23, 59, 59, endMs);
    if endDate < startDate then None else Some(Window(startDate, endDate))
  }

  // ---- the list ----

  /** The list the search box selects: every repair for an empty text, else the search results. */
  function ShownRepairs(query: string, rows: seq<Repair>): (res: seq<Repair>)
    ensures res == SearchDatabase(rows, query)
  {
    if query == [] then
      EmptySearchIsAll(rows);
      AllRepairsOrderedByDate(rows)
    else SearchDatabase(rows, query)
  }

  class MainScreen {
    /** The text of the period button. */
    var filterLabel: string
    /** The window of the stats being observed. */
    var statsWindow: Window
    /** The text of the search box. */
    var query: string

    /** `onCreate`: the list unfiltered and the stats of the last 7 days; the button keeps its layout text. */
    constructor (initialLabel: string, now: int, fiveYearsAgo: int)
      ensures filterLabel == initialLabel && query == []
      ensures statsWindow == AsWrittenMainWindow(Last7Days, now, fiveYearsAgo)
    {
      filterLabel := initialLabel;
      query := [];
      statsWindow := Window(now, now);
      new;
      UpdateDashboardForPeriod(Last7Days, now, fiveYearsAgo);
    }

    /**
     * `updateDashboardForPeriod(period)` as written: "Today" and "Yesterday"
     * zero only the hour. `now` is the calendar's reading, which the second
     * calendar of "Yesterday" reads too.
     */
    method UpdateDashboardForPeriod(period: string, now: int, fiveYearsAgo: int)
      modifies this`statsWindow
      ensures statsWindow == AsWrittenMainWindow(period, now, fiveYearsAgo)
    {
      var calendar := now;
      var endDate := calendar;
      if period == Today {
        calendar := SetHourOfDay(calendar, 0);
      } else if period == Yesterday {
        calendar := AddDays(calendar, -1);
        calendar := SetHourOfDay(calendar, 0);
        var endOfYesterday := AddDays(now, -1);
        endOfYesterday := SetHourOfDay(endOfYesterday, 23);
        endOfYesterday := SetMinute(endOfYesterday, 59);
        endOfYesterday := SetSecond(endOfYesterday, 59);
        endDate := endOfYesterday;
      } else if period == Last7Days {
        calendar := AddDays(calendar, -7);
      } else if period == Last30Days {
        calendar := AddDays(calendar, -30);
      } else if period == Last5Years {
        calendar := fiveYearsAgo;
      }
      statsWindow := Window(calendar, endDate);
    }

    /** A pick from the period menu: the custom entry only opens the date pickers. */
    method SelectPeriod(period: string, now: int, fiveYearsAgo: int)
      modifies this`filterLabel, this`statsWindow
      ensures period == CustomRangeItem ==> filterLabel == old(filterLabel) && statsWindow == old(statsWindow)
      ensures period != CustomRangeItem ==> filterLabel == period && statsWindow == AsWrittenMainWindow(period, now, fiveYearsAgo)
    {
      if period != CustomRangeItem {
        filterLabel := period;
        UpdateDashboardForPeriod(period, now, fiveYearsAgo);
      }
    }

    /**
     * The end date picker's callback: a range that ends before it starts is
     * refused and nothing changes; otherwise the button shows the two dates
     * and the stats cover the range.
     */
    method PickCustomRange(startDay: int, startMs: int, endDay: int, endMs: int, startText: string, endText: string)
      returns (accepted: bool)
      requires 0 <= startMs < 1000 && 0 <= endMs < 1000
      modifies this`filterLabel, this`statsWindow
      ensures accepted <==> startDay <= endDay
      ensures accepted ==>
        filterLabel == CustomLabel(startText, endText) && statsWindow == CustomRange(startDay, startMs, endDay, endMs).value
      ensures !accepted ==> filterLabel == old(filterLabel) && statsWindow == old(statsWindow)
    {
      var range := CustomRange(startDay, startMs, endDay, endMs);
      accepted := range.Some?;
      if accepted {
        filterLabel := CustomLabel(startText, endText);
        statsWindow := range.value;
      }
    }

    /** The refresh action: the button's period again, or the last 7 days after a custom range. */
    method Refresh(now: int, fiveYearsAgo: int)
      modifies this`statsWindow
      ensures statsWindow == AsWrittenMainWindow(RefreshPeriod(filterLabel, Last7Days), now, fiveYearsAgo)
    {
      UpdateDashboardForPeriod(RefreshPeriod(filterLabel, Last7Days), now, fiveYearsAgo);
    }

    /** A change of the search text swaps the observed list. */
    method Search(text: string)
      modifies this`query
      ensures query == text
    {
      query := text;
    }

    /**
     * Backup then restore: the backup is every repair, newest first; restoring
     * it clears the table and inserts the list, which gives back the same
     * table. Orders are neither backed up nor touched.
     */
    method BackupAndRestore(repo: RepairRepository) returns (outcome: RestoreOutcome)
      requires repo.Valid()
      modifies repo.repairDao
      ensures repo.Valid()
      ensures outcome == Restored
      ensures repo.repairDao.State() == old(repo.repairDao.State())
      ensures repo.orderDao.State() == old(repo.orderDao.State())
    {
      var backup := AllRepairsOrderedByDate(repo.repairDao.rows);
      RestoreOfBackupIsIdentity(repo.repairDao.State());
      outcome := repo.RestoreFromBackup(backup);
    }
  }
}
