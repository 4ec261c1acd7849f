# MobileRepairShopV2 in Dafny

This project models the bookkeeping logic of MobileRepairShopV2, an Android app for a mobile-phone repair shop. The shop records repairs and orders, and shows windowed dashboard figures. Specifically, the model covers:

- the two Room tables and the queries the DAOs run on them;
- the repository's restore-from-backup loop;
- the field rules of the add and detail screens;
- the period windows of the two dashboards;
- the labels and diff callbacks of the two list adapters.

Modelling conventions:

- **Money** is an `int`, in hundredths.
  - Text is read the way Kotlin's `toDoubleOrNull()` reads a decimal amount (`Amount.ParseAmount`).
  - Amounts are written the way `Double.toString()` writes them (`Amount.ShowAmount`).
  - Reading back a written amount gives the same amount.
- **Timestamps** are `int` epoch milliseconds in a fixed local offset. "Now" and the calendar's year arithmetic are parameters.
- **Status** is free text. `"In"`, `"Pending"` and `"Out"` are the spinner's entries, not a restriction.

How each part is modelled:

- **Tables (`Table.Store`):**
  - A table is a class holding its rows, in key order, and its `sqlite_sequence` value.
  - Room's default `@Insert`, `@Update`, `@Delete` and `DELETE FROM` are methods specified against pure functions of the old state.
  - A key of 0 means "not yet assigned": it gets the next key. An explicit key that is already taken aborts the insert.
- **Queries:** recursive counts, sums and filters over the rows, with these SQL rules:
  - `SUM` over no rows is NULL (`None`);
  - a NULL `dateCompleted` is never in a window;
  - `LIKE` is SQLite's, with `%`, `_` and ASCII case folding;
  - `ORDER BY dateAdded DESC` is a sort that keeps table order among equal dates.
- **Screens:** classes whose methods change the screen's fields and, through `Repository.RepairRepository`, the tables.
  - The two detail screens share `DetailRules.AmountFields`. It holds the cost field, the advance field, its error and the amount-due label, plus the `isUpdating` flag that stops the text watchers from re-running the check.

## Behaviour of the code worth noting

Some of the dashboard figures do not mean what their names suggest. The model follows the code in each case.

- **Repair `inCount`** counts every repair added in the window, whatever its status, not only the `In` repairs (`RepairDao.GetStats`).
- **Repair stats have no pending count.** The repair pending count is global, `getPendingCount()`, with no window (`RepairDao.PendingCount`).
- **Order `inCount`** counts only orders with status `In`, not every order added in the window (`OrderDao.GetOrderStats`).
- **Money collected in a window can exceed the window's estimate**, even when no advance exceeds its cost. The reason is that `revenueFromOut` is windowed by completion date and the estimate by date added (`RepairDao.CollectedMayExceedEstimate`).
- **Upcoming revenue** is the dues of the repairs not yet `Out`. Two unfinished repairs of 1000 and 500 with advances of 200 and 0, beside one of 800 paid in full, give 1300 (`RepairDao.ThreeRepairStats`).
- **Empty sums:** the repair stats query returns NULL sums over no rows, and the screen reads them as 0 (`Dashboard.ShowStats`).
- **Backup:** only repairs are backed up and restored, as a bare list; orders are not (`Dashboard.MainScreen.BackupAndRestore`).

The orders dashboard's "Today" and "Yesterday" set the hour, minute and second to 0 but keep the millisecond of the clock reading, so they start up to 999 ms after midnight (`OrdersDashboard.TodayWindow`, `OrdersDashboard.YesterdayWindow`).

## Model

| member | source | states |
|---|---|---|
| Table.Find | app/src/main/java/com/example/mobilerepairshopv2/data/local/RepairDao.kt:24-25 | `getRepairById`: a row comes back exactly when one has the id, and it is a row of the table with that id |
| Table.FindInAscending | app/src/main/java/com/example/mobilerepairshopv2/data/local/OrderDao.kt:27-28 | in a table kept in key order, looking up a row's id returns that very row |
| Table.InsertRowValid | app/src/main/java/com/example/mobilerepairshopv2/data/local/RepairDao.kt:15-16 | an insert succeeds exactly when the id is 0 or not yet taken, and keeps the table in key order with no key 0 and none above `sqlite_sequence` |
| Table.UpdateRowValid | app/src/main/java/com/example/mobilerepairshopv2/data/local/RepairDao.kt:18-19 | an update keeps the table invariant |
| Table.DeleteRowValid | app/src/main/java/com/example/mobilerepairshopv2/data/local/RepairDao.kt:21-22 | a delete keeps the table invariant |
| Table.Store.Insert | app/src/main/java/com/example/mobilerepairshopv2/data/local/RepairDao.kt:15-16 | `@Insert`: fails, changing nothing, exactly when an explicit id is taken; a row with id 0 is appended under `sqlite_sequence + 1`, which becomes the new sequence value; an explicit id adds exactly that row |
| Table.Store.Update | app/src/main/java/com/example/mobilerepairshopv2/data/local/RepairDao.kt:18-19 | `@Update`: the row with the record's id becomes the record, every other row and the sequence stay |
| Table.Store.Delete | app/src/main/java/com/example/mobilerepairshopv2/data/local/RepairDao.kt:21-22 | `@Delete`: no row with the id is left, every other row stays, no row appears |
| Table.Store.ClearAll | app/src/main/java/com/example/mobilerepairshopv2/data/local/RepairDao.kt:51-53 | `DELETE FROM`: no rows remain and `sqlite_sequence` is kept |
| Table.SortDesc | app/src/main/java/com/example/mobilerepairshopv2/data/local/RepairDao.kt:27 | `ORDER BY dateAdded DESC`: a permutation of the rows in non-increasing date order |
| Table.InsertDesc | app/src/main/java/com/example/mobilerepairshopv2/data/local/RepairDao.kt:27 | placing one row into a newest-first list keeps it newest first and adds exactly that row |
| Table.AscendingUnique | app/src/main/java/com/example/mobilerepairshopv2/data/RepairRepository.kt:50-53 | two key-ordered tables holding the same rows are the same table |
| Aggregate.Count | app/src/main/java/com/example/mobilerepairshopv2/data/local/RepairDao.kt:35 | `COUNT(*) ... WHERE p` is at most the row count, and 0 exactly when no row satisfies `p` |
| Aggregate.CountIsMatchingSize | app/src/main/java/com/example/mobilerepairshopv2/data/local/RepairDao.kt:35-36 | the count is the number of row positions satisfying the condition |
| Aggregate.CountSplit | app/src/main/java/com/example/mobilerepairshopv2/data/local/OrderDao.kt:41-43 | a condition split into two disjoint cases counts the sum of both counts |
| Aggregate.SumSplit | app/src/main/java/com/example/mobilerepairshopv2/data/local/RepairDao.kt:37-40 | a sum over a condition split into two disjoint cases is the sum of both sums |
| Aggregate.SumAdditive | app/src/main/java/com/example/mobilerepairshopv2/data/local/RepairDao.kt:38-40 | summing `totalCost - advanceTaken` is summing the advances and the dues separately |
| Aggregate.SumOfIndicator | app/src/main/java/com/example/mobilerepairshopv2/data/local/OrderDao.kt:41-43 | `SUM(CASE WHEN p THEN 1 ELSE 0 END)` over every row is the count of rows satisfying `p` |
| Aggregate.SqlSumOrZero | app/src/main/java/com/example/mobilerepairshopv2/MainActivity.kt:279-287 | a NULL sum read as 0 is the plain sum |
| Aggregate.SumOverNoRows | app/src/main/java/com/example/mobilerepairshopv2/data/local/RepairDao.kt:37 | over no matching rows the plain sum is 0 |
| Aggregate.CountMonotone | app/src/main/java/com/example/mobilerepairshopv2/data/local/OrderDao.kt:41-43 | a condition implied by another counts at least as many rows |
| Aggregate.Filter | app/src/main/java/com/example/mobilerepairshopv2/data/local/RepairDao.kt:30 | `WHERE`: the result holds exactly the matching rows, as many as the count |
| SqlLike.LikeIsContainsFold | app/src/main/java/com/example/mobilerepairshopv2/data/local/RepairDao.kt:30 | for a text without wildcards, `s LIKE '%' ‖ q ‖ '%'` holds exactly when `q` occurs in `s` up to ASCII case |
| SqlLike.NameOrContactContains | app/src/main/java/com/example/mobilerepairshopv2/data/local/RepairDao.kt:30 | a row matches the search exactly when its present name or its contact contains the text, so a NULL name matches only through the contact |
| SqlLike.EmptySearchMatchesAll | app/src/main/java/com/example/mobilerepairshopv2/data/local/OrderDao.kt:35 | the empty search text matches every row |
| SqlLike.UnderscoreMatchesAnyContact | app/src/main/java/com/example/mobilerepairshopv2/data/local/RepairDao.kt:30 | the text is used as a pattern: a lone `_` matches every row with a non-empty contact |
| RepairDao.GetStats | app/src/main/java/com/example/mobilerepairshopv2/data/local/RepairDao.kt:33-42 | `inCount` is the number of repairs added in the window, of any status; `outCount` the `Out` repairs completed in it; `estimatedRevenue` sums the cost of the rows `inCount` counts, and is NULL exactly when that count is 0; `revenueFromOut` sums the cost of the rows `outCount` counts, and is NULL exactly when that count is 0; the two pending sums are the advances and the dues of the repairs added in the window and not `Out`, NULL together exactly when there are none, and add up to those rows' cost |
| RepairDao.EstimateSplits | app/src/main/java/com/example/mobilerepairshopv2/data/local/RepairDao.kt:37-40 | the estimate is the pending advances plus the dues plus the cost of repairs added in the window and now `Out` |
| RepairDao.StatsOfAppendedRow | app/src/main/java/com/example/mobilerepairshopv2/data/local/RepairDao.kt:35-36 | a new row adds one to a count exactly when its date is within both inclusive bounds; a row without `dateCompleted` never adds to `outCount` |
| RepairDao.PendingSumsOverInAndPending | app/src/main/java/com/example/mobilerepairshopv2/data/model/DashboardStats.kt:12-17 | when every status is one of the three, the `status != 'Out'` sums are the sums over `In` and `Pending` repairs |
| RepairDao.CollectedMayExceedEstimate | app/src/main/java/com/example/mobilerepairshopv2/data/local/RepairDao.kt:37-39 | a repair added before the window and completed in it gives a collected revenue with no estimate at all |
| RepairDao.ThreeRepairStats | app/src/main/java/com/example/mobilerepairshopv2/data/local/RepairDao.kt:33-42 | three concrete repairs give estimate 2300, pending advance 200, `Out` revenue 800 and upcoming revenue 1300 |
| RepairDao.PendingCount | app/src/main/java/com/example/mobilerepairshopv2/data/local/RepairDao.kt:44-45 | the number of `Pending` repairs over the whole table, with no window |
| RepairDao.AllRepairsOrderedByDate | app/src/main/java/com/example/mobilerepairshopv2/data/local/RepairDao.kt:48-49 | the list and backup queries return every repair, newest first |
| RepairDao.SearchDatabase | app/src/main/java/com/example/mobilerepairshopv2/data/local/RepairDao.kt:30-31 | exactly the matching repairs, each once, newest first |
| RepairDao.EmptySearchIsAll | app/src/main/java/com/example/mobilerepairshopv2/data/local/RepairDao.kt:27-31 | the search for the empty text returns the same list as the list query |
| OrderDao.CaseCount | app/src/main/java/com/example/mobilerepairshopv2/data/local/OrderDao.kt:41-43 | `IFNULL(SUM(CASE ...), 0)` is the count of rows satisfying the case |
| OrderDao.GetOrderStats | app/src/main/java/com/example/mobilerepairshopv2/data/local/OrderDao.kt:39-46 | `inCount` counts only `In` orders added in the window, `outCount` the `Out` orders completed in it, `pendingCount` the `Pending` ones added in it; all three are at least 0 and are 0 on an empty table |
| OrderDao.InAndPendingWithinAdded | app/src/main/java/com/example/mobilerepairshopv2/data/local/OrderDao.kt:41-43 | `inCount + pendingCount` is at most the number of orders added in the window |
| OrderDao.AllOrders | app/src/main/java/com/example/mobilerepairshopv2/data/local/OrderDao.kt:31-32 | every order, newest first |
| OrderDao.SearchOrders | app/src/main/java/com/example/mobilerepairshopv2/data/local/OrderDao.kt:35-36 | exactly the matching orders, each once, newest first |
| OrderDao.EmptySearchIsAll | app/src/main/java/com/example/mobilerepairshopv2/data/local/OrderDao.kt:31-36 | the search for the empty text returns every order, as the list query does |
| Repository.InsertAll | app/src/main/java/com/example/mobilerepairshopv2/data/RepairRepository.kt:52 | inserting a list in order: when an insert aborts, the stop is reported at a position of the list |
| Repository.StoppedStays | app/src/main/java/com/example/mobilerepairshopv2/data/RepairRepository.kt:52 | once an insert has aborted, the rest of the list changes nothing |
| Repository.StoppedAtConflict | app/src/main/java/com/example/mobilerepairshopv2/data/RepairRepository.kt:52 | a stop leaves the table as the rows before it left it, and the row it stopped at is one whose insert aborts |
| Repository.InsertedKeysPresent | app/src/main/java/com/example/mobilerepairshopv2/data/RepairRepository.kt:52 | after inserts that all succeed, every non-zero id of the list is in the table |
| Repository.DuplicateKeyStops | app/src/main/java/com/example/mobilerepairshopv2/data/RepairRepository.kt:52 | a list with a repeated non-zero id aborts, at the repeat or earlier |
| Repository.RestoreDistinct | app/src/main/java/com/example/mobilerepairshopv2/data/RepairRepository.kt:50-53 | into an emptied table a list with distinct non-zero ids goes in whole: the table stays valid, holds exactly the list's records, and keeps `sqlite_sequence` when no id exceeds it |
| Repository.RestoreOfBackupIsIdentity | app/src/main/java/com/example/mobilerepairshopv2/data/RepairRepository.kt:45-53 | clearing the table and inserting the backup query's list gives back the same table |
| Repository.RepairRepository.Insert | app/src/main/java/com/example/mobilerepairshopv2/data/RepairRepository.kt:33-35 | the repair table's insert, success and new state as `@Insert` has them |
| Repository.RepairRepository.Update | app/src/main/java/com/example/mobilerepairshopv2/data/RepairRepository.kt:37-39 | the repair table's update |
| Repository.RepairRepository.Delete | app/src/main/java/com/example/mobilerepairshopv2/data/RepairRepository.kt:41-43 | the repair table's delete |
| Repository.RepairRepository.InsertOrder | app/src/main/java/com/example/mobilerepairshopv2/data/RepairRepository.kt:71-73 | the order table's insert |
| Repository.RepairRepository.UpdateOrder | app/src/main/java/com/example/mobilerepairshopv2/data/RepairRepository.kt:75-77 | the order table's update |
| Repository.RepairRepository.DeleteOrder | app/src/main/java/com/example/mobilerepairshopv2/data/RepairRepository.kt:79-81 | the order table's delete |
| Repository.RepairRepository.RestoreFromBackup | app/src/main/java/com/example/mobilerepairshopv2/data/RepairRepository.kt:49-53 | clear, then insert in list order: the repair table ends as `InsertAll` of the emptied table, the outcome reports where an abort happened, and the orders table is unchanged |
| Text.TrimOrNone | app/src/main/java/com/example/mobilerepairshopv2/AddRepairActivity.kt:114 | `trim().ifEmpty { null }`: absent exactly for an all-whitespace text, else the trimmed text |
| Text.StripEnds | app/src/main/java/com/example/mobilerepairshopv2/AddRepairActivity.kt:95-101 | `trim()` leaves a text that neither starts nor ends with whitespace, and the empty text exactly when every character was whitespace |
| Text.StripIdempotent | app/src/main/java/com/example/mobilerepairshopv2/RepairDetailActivity.kt:183 | trimming a trimmed text changes nothing |
| Amount.ParseAmountNegated | app/src/main/java/com/example/mobilerepairshopv2/AddRepairActivity.kt:109-110 | `toDoubleOrNull()` reads a minus sign before an amount as its negative, so negative costs and advances are accepted |
| Amount.ParseShowAmount | app/src/main/java/com/example/mobilerepairshopv2/RepairDetailActivity.kt:150-151 | an amount written into a field as `toString()` writes it reads back as the same amount |
| Clock.Compose | app/src/main/java/com/example/mobilerepairshopv2/MainActivity.kt:229 | an instant built from a day and a time of day has exactly those calendar fields |
| Clock.SetHourOfDay | app/src/main/java/com/example/mobilerepairshopv2/MainActivity.kt:256 | `set(HOUR_OF_DAY, h)` changes the hour and no other field |
| Clock.SetMinute | app/src/main/java/com/example/mobilerepairshopv2/ViewOrdersActivity.kt:112 | `set(MINUTE, m)` changes the minute and no other field |
| Clock.SetSecond | app/src/main/java/com/example/mobilerepairshopv2/ViewOrdersActivity.kt:112 | `set(SECOND, s)` changes the second and no other field |
| Clock.AddDays | app/src/main/java/com/example/mobilerepairshopv2/MainActivity.kt:258 | `add(DAY_OF_YEAR, n)` moves the day by `n` and keeps the time of day |
| DetailRules.CheckAdvance | app/src/main/java/com/example/mobilerepairshopv2/RepairDetailActivity.kt:147-166 | the error is shown exactly when the advance read exceeds the cost read; without it the advance text is left as typed |
| DetailRules.CheckAdvanceClamps | app/src/main/java/com/example/mobilerepairshopv2/RepairDetailActivity.kt:153-162 | the advance left reads as the smaller of the two, and the amount due is the cost minus it, never negative |
| DetailRules.CheckAdvanceSettles | app/src/main/java/com/example/mobilerepairshopv2/RepairDetailActivity.kt:137-141 | after one check the fields agree, and the watcher's next check changes nothing and clears the error |
| DetailRules.LoadedFieldsSettle | app/src/main/java/com/example/mobilerepairshopv2/RepairDetailActivity.kt:122-124 | setting the stored cost, then the stored advance, then checking, leaves the advance clamped to the cost with no error |
| DetailRules.AmountFields.Calculate | app/src/main/java/com/example/mobilerepairshopv2/RepairDetailActivity.kt:150-162 | the arithmetic of the check computes exactly `CheckAdvance` |
| DetailRules.AmountFields.ValidateAndCalculate | app/src/main/java/com/example/mobilerepairshopv2/OrderDetailActivity.kt:139-156 | the fields after a check are those `CheckAdvance` gives for the fields before it, with the watchers live again |
| DetailRules.AmountFields.EditCost | app/src/main/java/com/example/mobilerepairshopv2/RepairDetailActivity.kt:133-144 | a new cost text runs the check through its watcher, and the fields agree afterwards |
| DetailRules.AmountFields.EditAdvance | app/src/main/java/com/example/mobilerepairshopv2/OrderDetailActivity.kt:127-137 | a new advance text runs the check through its watcher, and the fields agree afterwards |
| DetailRules.AmountFields.Bind | app/src/main/java/com/example/mobilerepairshopv2/OrderDetailActivity.kt:116-118 | loading amounts shows the cost and the advance clamped to it, the due as their difference, and no error |
| DetailRules.CompletionDate | app/src/main/java/com/example/mobilerepairshopv2/RepairDetailActivity.kt:196-198 | a set completion date stays; an absent one is set to now exactly by a save as `Out` |
| DetailRules.FirstOutSave | app/src/main/java/com/example/mobilerepairshopv2/RepairDetailActivity.kt:196-198 | among a series of saves there is a first one as `Out` exactly when some save is as `Out` |
| DetailRules.DateIsFirstOutSave | app/src/main/java/com/example/mobilerepairshopv2/OrderDetailActivity.kt:183-185 | over any series of saves the date is the one the record came with, or else the time of the first save as `Out`; leaving `Out` never clears it |
| RepairDetail.SavedRepair | app/src/main/java/com/example/mobilerepairshopv2/RepairDetailActivity.kt:190-198 | a save changes status, cost, advance and description, the completion date only by the set-once rule, and no other field |
| RepairDetail.SaveTwiceIsSaveOnce | app/src/main/java/com/example/mobilerepairshopv2/RepairDetailActivity.kt:190-198 | saving the same edits again writes the same record, whatever the clock reads |
| RepairDetail.MessageFor | app/src/main/java/com/example/mobilerepairshopv2/RepairDetailActivity.kt:206-228 | a message goes only for a loaded repair with a non-empty contact and status `Out`, to `+91` and the contact, showing the cost and the unclamped due; a missing name greets as `null` |
| RepairDetail.MessageMayShowNegativeDue | app/src/main/java/com/example/mobilerepairshopv2/RepairDetailActivity.kt:219 | a stored advance above the cost makes the message announce a negative amount due |
| RepairDetail.RepairDetailScreen.EditDescription | app/src/main/java/com/example/mobilerepairshopv2/RepairDetailActivity.kt:183 | the description field holds the typed text |
| RepairDetail.RepairDetailScreen.SelectStatus | app/src/main/java/com/example/mobilerepairshopv2/RepairDetailActivity.kt:180 | the spinner holds the chosen entry |
| RepairDetail.RepairDetailScreen.Bind | app/src/main/java/com/example/mobilerepairshopv2/RepairDetailActivity.kt:106-131 | the description as stored, the amounts shown clamped, the spinner moved only to a status it lists |
| RepairDetail.RepairDetailScreen.Load | app/src/main/java/com/example/mobilerepairshopv2/RepairDetailActivity.kt:53-60 | the first emitted repair is kept and bound; later emissions change nothing |
| RepairDetail.RepairDetailScreen.SaveChanges | app/src/main/java/com/example/mobilerepairshopv2/RepairDetailActivity.kt:179-204 | refused exactly when the cost text, the advance text or the trimmed description is empty; an unreadable amount aborts after the status is written into the record; otherwise `SavedRepair` is written to the table and nothing else changes |
| RepairDetail.RepairDetailScreen.Delete | app/src/main/java/com/example/mobilerepairshopv2/RepairDetailActivity.kt:94-99 | with a repair loaded its row goes, by id; with none nothing changes |
| OrderDetail.SavedOrder | app/src/main/java/com/example/mobilerepairshopv2/OrderDetailActivity.kt:177-185 | a save changes status, cost, advance and description, the completion date only by the set-once rule, and no other field |
| OrderDetail.SaveTwiceIsSaveOnce | app/src/main/java/com/example/mobilerepairshopv2/OrderDetailActivity.kt:177-185 | saving the same edits again writes the same record |
| OrderDetail.LabelledDescriptionIsStored | app/src/main/java/com/example/mobilerepairshopv2/OrderDetailActivity.kt:181 | as written, an unedited save stores a description starting with `Description:`, present even when the order had none |
| OrderDetail.LabelledDescriptionGrows | app/src/main/java/com/example/mobilerepairshopv2/OrderDetailActivity.kt:110 | as written, an unedited load and save stores a description with `Description: ` put before it, so every round adds one more label |
| OrderDetail.AbsentDescriptionBecomesLabel | app/src/main/java/com/example/mobilerepairshopv2/OrderDetailActivity.kt:110 | as written, an order without description gets the description `Description: N/A` |
| OrderDetail.BoundDescriptionRoundTrip | app/src/main/java/com/example/mobilerepairshopv2/OrderDetailActivity.kt:181 | with the description shown as stored, an unedited save stores it unchanged, absent staying absent |
| OrderDetail.MessageFor | app/src/main/java/com/example/mobilerepairshopv2/OrderDetailActivity.kt:193-210 | a message goes for a loaded order exactly when it is `Out`, with no contact check; a missing name greets as `Valued Customer` |
| OrderDetail.MessageWithoutContact | app/src/main/java/com/example/mobilerepairshopv2/OrderDetailActivity.kt:195-210 | an `Out` order with an empty contact gets a message to the bare `+91` |
| OrderDetail.OrderDetailScreen.EditDescription | app/src/main/java/com/example/mobilerepairshopv2/OrderDetailActivity.kt:181 | the description view holds the typed text, for a layout that lets it be edited |
| OrderDetail.OrderDetailScreen.SelectStatus | app/src/main/java/com/example/mobilerepairshopv2/OrderDetailActivity.kt:168 | the spinner holds the chosen entry |
| OrderDetail.OrderDetailScreen.Bind | app/src/main/java/com/example/mobilerepairshopv2/OrderDetailActivity.kt:105-125 | the description view shows `Description: ` and the description, or `N/A` when absent; the amounts are shown clamped; the spinner moves only to a status it lists |
| OrderDetail.OrderDetailScreen.Load | app/src/main/java/com/example/mobilerepairshopv2/OrderDetailActivity.kt:52-59 | the first emitted order is kept and bound, its description shown with the `Description: ` label; later emissions change nothing |
| OrderDetail.OrderDetailScreen.SaveChanges | app/src/main/java/com/example/mobilerepairshopv2/OrderDetailActivity.kt:167-191 | refused exactly when the raw cost text is empty; an unreadable cost aborts after the status is written; the advance reads as 0 when unreadable, a blank description is stored absent, and `SavedOrder` is written to the table |
| OrderDetail.OrderDetailScreen.Delete | app/src/main/java/com/example/mobilerepairshopv2/OrderDetailActivity.kt:93-98 | with an order loaded its row goes, by id; with none nothing changes |
| AddRepair.NewRepair | app/src/main/java/com/example/mobilerepairshopv2/AddRepairActivity.kt:94-125 | nothing is built exactly when the trimmed contact or cost text is empty; blank optional texts become absent, unreadable amounts 0; status `In`, no id, no completion date, the picked date; no advance check |
| AddRepair.TypedAmountsAreKept | app/src/main/java/com/example/mobilerepairshopv2/AddRepairActivity.kt:109-110 | amounts typed as the screens show them are stored exactly, an advance above the cost included |
| AddRepair.AddRepairScreen.PickDate | app/src/main/java/com/example/mobilerepairshopv2/AddRepairActivity.kt:81-85 | the picked day with the time of day at which it was picked |
| AddRepair.AddRepairScreen.CreateImageFile | app/src/main/java/com/example/mobilerepairshopv2/AddRepairActivity.kt:158-169 | the new photo file's path is remembered |
| AddRepair.AddRepairScreen.SaveRepair | app/src/main/java/com/example/mobilerepairshopv2/AddRepairActivity.kt:94-129 | a valid form appends the new repair under the next id; an invalid one changes nothing; orders are untouched |
| AddOrder.NewOrder | app/src/main/java/com/example/mobilerepairshopv2/AddOrderActivity.kt:67-92 | nothing is built exactly when the trimmed contact or cost text is empty; blank name and description become absent, unreadable amounts 0; status `In`, dated now, no completion date |
| AddOrder.TypedAmountsAreKept | app/src/main/java/com/example/mobilerepairshopv2/AddOrderActivity.kt:79-80 | amounts typed as the screens show them are stored exactly, an advance above the cost included |
| AddOrder.AddOrderScreen.CreateImageFile | app/src/main/java/com/example/mobilerepairshopv2/AddOrderActivity.kt:116-123 | the new photo file's path is remembered |
| AddOrder.AddOrderScreen.SaveOrder | app/src/main/java/com/example/mobilerepairshopv2/AddOrderActivity.kt:67-96 | a valid form appends the new order under the next id; an invalid one changes nothing; repairs are untouched |
| Periods.RefreshPeriod | app/src/main/java/com/example/mobilerepairshopv2/MainActivity.kt:96 | the button's label is used again unless it contains ` to `, and then the fallback |
| Periods.CustomLabelFallsBack | app/src/main/java/com/example/mobilerepairshopv2/ViewOrdersActivity.kt:68 | the label of an accepted custom range always falls back on refresh |
| Dashboard.ShowStats | app/src/main/java/com/example/mobilerepairshopv2/MainActivity.kt:274-289 | every missing figure shows as 0, and the collected revenue is the pending advances plus the `Out` revenue, each coalesced first |
| Dashboard.ShownStatsAreSums | app/src/main/java/com/example/mobilerepairshopv2/MainActivity.kt:276-288 | over a table the shown figures are the plain counts and sums of the query's conditions |
| Dashboard.EmptyTableShowsZeros | app/src/main/java/com/example/mobilerepairshopv2/MainActivity.kt:279-287 | an empty table has NULL sums and shows zeros |
| Dashboard.AsWrittenMainWindow | app/src/main/java/com/example/mobilerepairshopv2/MainActivity.kt:252-272 | the windows as written: every window but "Yesterday" ends now, and an unknown label gives start equal to end |
| Dashboard.AsWrittenDayWindowsMissMidnight | app/src/main/java/com/example/mobilerepairshopv2/MainActivity.kt:256-259 | unless the clock reads an exact hour, midnight today is outside "Today" and midnight yesterday outside "Yesterday" |
| Dashboard.MainWindow | app/src/main/java/com/example/mobilerepairshopv2/MainActivity.kt:252-272 | the corrected windows: every window but "Yesterday" ends now, and an unknown label gives start equal to end |
| Dashboard.TodayWindowIsToday | app/src/main/java/com/example/mobilerepairshopv2/MainActivity.kt:256 | corrected "Today" holds exactly the instants of the current day up to now |
| Dashboard.YesterdayWindowIsYesterday | app/src/main/java/com/example/mobilerepairshopv2/MainActivity.kt:257-264 | corrected "Yesterday" holds exactly the instants of the previous day |
| Dashboard.DaysBackWindows | app/src/main/java/com/example/mobilerepairshopv2/MainActivity.kt:266-267 | the week and month windows start 7 or 30 days back at the same time of day and end now; every window but "Today" and "Yesterday" is the same as written and corrected |
| Dashboard.CustomRange | app/src/main/java/com/example/mobilerepairshopv2/MainActivity.kt:228-237 | a range is accepted exactly when its end day is not before its start day, and it runs from 00:00:00 of the one to 23:59:59 of the other |
| Dashboard.ShownRepairs | app/src/main/java/com/example/mobilerepairshopv2/MainActivity.kt:184-188 | the empty text shows the full list, which is the search for the empty text |
| Dashboard.MainScreen.constructor | app/src/main/java/com/example/mobilerepairshopv2/MainActivity.kt:76 | the dashboard opens on the as-written last 7 days window with no search |
| Dashboard.MainScreen.UpdateDashboardForPeriod | app/src/main/java/com/example/mobilerepairshopv2/MainActivity.kt:252-272 | the calendar steps, with only `HOUR_OF_DAY` zeroed for "Today" and "Yesterday", compute the as-written window |
| Dashboard.MainScreen.SelectPeriod | app/src/main/java/com/example/mobilerepairshopv2/MainActivity.kt:212-219 | the custom entry changes nothing; any other sets the label and the as-written window |
| Dashboard.MainScreen.PickCustomRange | app/src/main/java/com/example/mobilerepairshopv2/MainActivity.kt:231-242 | a reversed range is refused and nothing changes; otherwise the label names the two dates and the window is the range |
| Dashboard.MainScreen.Refresh | app/src/main/java/com/example/mobilerepairshopv2/MainActivity.kt:94-96 | the as-written window of the button's period, or of the last 7 days after a custom range |
| Dashboard.MainScreen.Search | app/src/main/java/com/example/mobilerepairshopv2/MainActivity.kt:183-188 | the search text selects the shown list |
| Dashboard.MainScreen.BackupAndRestore | app/src/main/java/com/example/mobilerepairshopv2/MainActivity.kt:106-150 | restoring the backup list always completes and leaves both tables as they were |
| OrdersDashboard.ShowOrderStats | app/src/main/java/com/example/mobilerepairshopv2/ViewOrdersActivity.kt:144-149 | a missing emission shows three zeros, otherwise the three counts |
| OrdersDashboard.ShownCountsOfTable | app/src/main/java/com/example/mobilerepairshopv2/ViewOrdersActivity.kt:146-148 | over a table the shown counts are the status counts of the window, never negative, `In` plus `Pending` at most the orders added |
| OrdersDashboard.OrdersWindow | app/src/main/java/com/example/mobilerepairshopv2/ViewOrdersActivity.kt:106-142 | every window but "Yesterday" ends now; "All Time" and every unknown label start at 0 |
| OrdersDashboard.TodayWindow | app/src/main/java/com/example/mobilerepairshopv2/ViewOrdersActivity.kt:111-113 | "Today" starts at 00:00:00 of the day plus the reading's millisecond and holds the instants of today from there to now |
| OrdersDashboard.YesterdayWindow | app/src/main/java/com/example/mobilerepairshopv2/ViewOrdersActivity.kt:115-124 | "Yesterday" runs from 00:00:00 to 23:59:59 of the previous day, both within that day, one second short of a day long |
| OrdersDashboard.ShownOrders | app/src/main/java/com/example/mobilerepairshopv2/ViewOrdersActivity.kt:95-99 | the empty text shows the full list, which is the search for the empty text |
| OrdersDashboard.OrdersScreen.constructor | app/src/main/java/com/example/mobilerepairshopv2/ViewOrdersActivity.kt:45 | the dashboard opens on all time, from 0 to now |
| OrdersDashboard.OrdersScreen.UpdateDashboardForPeriod | app/src/main/java/com/example/mobilerepairshopv2/ViewOrdersActivity.kt:106-142 | the branch-by-branch start and end are the window `OrdersWindow` gives |
| OrdersDashboard.OrdersScreen.SelectPeriod | app/src/main/java/com/example/mobilerepairshopv2/ViewOrdersActivity.kt:179-187 | the custom entry changes nothing; any other sets the label and the as-written window |
| OrdersDashboard.OrdersScreen.Refresh | app/src/main/java/com/example/mobilerepairshopv2/ViewOrdersActivity.kt:66-68 | the window of the button's period, or all time after a custom range |
| OrdersDashboard.OrdersScreen.Search | app/src/main/java/com/example/mobilerepairshopv2/ViewOrdersActivity.kt:94-99 | the search text selects the shown list |
| Adapters.DisplayName | app/src/main/java/com/example/mobilerepairshopv2/ui/adapter/RepairAdapter.kt:38-42 | a present, non-empty name is shown, otherwise the contact |
| Adapters.WholeDays | app/src/main/java/com/example/mobilerepairshopv2/ui/adapter/RepairAdapter.kt:52 | `toDays` counts whole days, truncated toward zero for past and future dates alike |
| Adapters.DaysLabel | app/src/main/java/com/example/mobilerepairshopv2/ui/adapter/RepairAdapter.kt:47-58 | `Completed` for `Out`, otherwise the label of the whole days since the record was added |
| Adapters.DaysLabelMeaning | app/src/main/java/com/example/mobilerepairshopv2/ui/adapter/OrderAdapter.kt:47-58 | `Completed` exactly for `Out`; `Today` exactly for less than a day either way; `1 day ago` exactly for one to two days back |
| Adapters.DaysCountReadsBack | app/src/main/java/com/example/mobilerepairshopv2/ui/adapter/RepairAdapter.kt:57 | from two days on, the label's number reads back as the whole days elapsed |
| Adapters.FutureDateShowsNegativeDays | app/src/main/java/com/example/mobilerepairshopv2/ui/adapter/OrderAdapter.kt:50-57 | a record dated a day ahead shows `-1 days ago` |
| Adapters.View | app/src/main/java/com/example/mobilerepairshopv2/ui/adapter/RepairAdapter.kt:31-59 | a row shows its id, the name or else the contact, the raw status, and `Completed` exactly for `Out`, otherwise the whole days since the record was added; `OrderAdapter.kt` binds an order the same way |
| Adapters.SameItemWithinTable | app/src/main/java/com/example/mobilerepairshopv2/ui/adapter/RepairAdapter.kt:80-86 | equal contents imply the same item, and among one table's rows the same item means equal contents |
| Adapters.EditedOrderIsSameItem | app/src/main/java/com/example/mobilerepairshopv2/ui/adapter/OrderAdapter.kt:80-86 | an edited order is the same item with different contents |

## Left out

- Gson encoding and decoding of the backup, the backup file, and sharing. Restore receives the decoded list.
- The WhatsApp URL, `Uri.encode` and the `"%.2f"` formatting of message and dashboard amounts. These are I/O and formatting. The message model keeps the figures it prints.
- Flow, LiveData, coroutines and observer swapping. These are reactivity, not logic. A screen method receives what an observer would be handed.
- `RepairViewModel`, which only delegates.
- Views, toasts, dialogs, menus, Glide, the camera, permissions and `FileProvider`.
- Time zones, daylight saving and calendar years. The clock is local milliseconds at a fixed offset, and `add(YEAR, …)` readings are parameters.
- Two clock readings taken one after another, as in `updateDashboardForPeriod`'s second `Calendar.getInstance()`, are taken to be equal.
- Dates are shown to the screens as day numbers. `SimpleDateFormat` texts are parameters (`Periods.CustomLabel`).
- `Double` amounts:
  - only the decimal forms a cash amount is typed in are read (optional sign, at most two decimals);
  - other texts `toDoubleOrNull()` accepts (exponents, `NaN`, more decimals) read as unreadable;
  - `ShowAmount` is exact below ten million units.
- 32- and 64-bit widths of counts and ids. Values are unbounded integers.
- Repository.RepairRepository: the read pass-throughs (`allRepairs`, `getStatsForPeriod`, `searchRepairs`, `getRepairById`, `pendingCount`, `getAllRepairsForBackup`, `allOrders`, `getOrderStatsForPeriod`, `getOrderById`, `searchOrders`) are not separate members. Each is the DAO function called on the table unchanged.
- `getAllOrdersForBackup` and the order `clearAll`. They are the same query and statement as `OrderDao.AllOrders` and `Table.Store.ClearAll`, and nothing calls them.
- Repository.RepairRepository.RestoreFromBackup: no rollback is modelled. `@Transaction` has effect only on DAO methods, so an aborted restore keeps both the clear and the rows inserted before the abort.
- The ordering among rows of equal `dateAdded`, which SQLite leaves unspecified. The model keeps table order.
- The repair dashboard's pending-count display and the order dashboard's `?: "0"` on its counts, which never fires on a non-null row. Both are shown via `RepairDao.PendingCount` and `OrdersDashboard.ShowOrderStats`.
- The orders dashboard's custom range picker, which is empty.
- The detail title, name, contact and date texts of the detail screens. They are display-only.
- The layout files, which are not part of this model. Whether the order screen's description view can be edited is therefore open. `OrderDetail.OrderDetailScreen.EditDescription` models an edit for a layout that allows one. Without it, every save writes the labelled text back (`OrderDetail.LabelledDescriptionGrows`).

## Findings

| source | as written | input that shows it | evidently intended | confidence | as-written member | corrected member |
|---|---|---|---|---|---|---|
| app/src/main/java/com/example/mobilerepairshopv2/OrderDetailActivity.kt:110 | the description view is filled with `"Description: " + (description ?: "N/A")`, and `saveChanges` stores that view's trimmed text as the description | an order with description `screen cracked` opened and saved unedited stores `Description: screen cracked`; an order without description stores `Description: N/A` | the view shows the stored description, empty when absent, so an unedited save keeps it | not executed | OrderDetail.LabelledDescriptionGrows | OrderDetail.BoundDescriptionRoundTrip |
| app/src/main/java/com/example/mobilerepairshopv2/MainActivity.kt:256 | "Today" and "Yesterday" set only `HOUR_OF_DAY` to 0, keeping the current minute, second and millisecond | at 14:30:00 a repair added at 00:10 today is outside "Today", and one added at 00:10 yesterday is outside "Yesterday" | "Today" starts at midnight and "Yesterday" covers the whole previous day, as the orders dashboard does by also zeroing minute and second | not executed | Dashboard.AsWrittenDayWindowsMissMidnight | Dashboard.TodayWindowIsToday |
