# PocketProfit paper-trading ledger in Dafny

PocketProfit is an Android app for paper trading stocks. The user starts with 15 000 of
virtual cash, buys and sells shares at market prices, and the app keeps the portfolio in a
local SQLite database. This project models the core of that app and proves properties of the
model:

- **The ledger of `DatabaseHelper`.**
  - The stocks table becomes a sequence of purchase lots in ascending id order.
  - The transaction table becomes an append-only sequence of records.
  - The daily profit table becomes one optional (date, value) slot.
  - The class `Database.DatabaseHelper` holds these as fields. Its methods change them as the
    SQL statements do:
    - purchase;
    - logging;
    - re-pricing;
    - the oldest-first liquidation;
    - the two-way day rollover of the realised-profit record.
  - The aggregate reads (share count, cost, equity, average cost, total equity, owned symbols,
    shares bought today, history newest-first) are pure functions over the tables.
- **The helpers of `Util`.**
  - The ordinal suffix of a day, today's date string, and the normalisation of a market date.
  - The 24-hour to 12-hour clock conversion.
  - The unit selection of the volume and market-cap formatters.
  - The preferences store: cash, watchlist and the date joined. It is modelled as the class
    `Util.Preferences`.
- **The order ticket of `StockTransactionActivity`.**
  - The share-count keypad, as a state machine on the field `shares`.
  - `executeTrade`: its ordered accept/reject rules for buys and sells, and the ledger,
    cash and watchlist updates of a filled order.

Module layout:

- `wrappers.dfy`: Option and Result.
- `java_text.dfy`: the Java string and integer operations the code relies on.
  - `String.split` drops trailing empty pieces.
  - `Integer.parseInt`.
  - `"" + int`.
  - The truncating `/` and `%` operators.
- `tables.dfy`: the row types.
- `lot_queries.dfy`: the reads over the stocks table.
- `fifo_sale.dfy`: the specification of a FIFO sale and its lemmas.
- `profit_record.dfy`: the realised-profit slot.
- `transaction_log.dfy`: the reads over the transaction log.
- `database.dfy`: the `DatabaseHelper` class and the liquidation loops.
- `util.dfy`: the helpers and the preferences store.
- `trading.dfy`: the order ticket.

`liquidateStock` reads its rows through a cursor opened before any UPDATE runs. It then writes
each row's remaining quantity back. The model does the same:

- it takes a snapshot of the table;
- the outer loop (`Database.SellOldestFirst`) walks the lots of the symbol in id order;
- the inner loop (`Database.SellFromLot`) sells one share at a time;
- each rewritten quantity goes back into the copy at the lot's position;
- the zero-quantity rows are deleted afterwards.

Both loops are proved equal to the recursive specification `FifoSale.FifoSell`. All the
properties of a sale are proved about that specification.

Prices and money are `real`. Quantities are `nat`. Dates are strings compared by equality.

## Model

| member | source | states |
|---|---|---|
| Database.DatabaseHelper.constructor | app/src/main/java/pocketprofit/source/database/DatabaseHelper.java:41-85 | A fresh database has empty stocks, transactions and profit tables, and the next lot id is 1. |
| Database.DatabaseHelper.ClearTables | app/src/main/java/pocketprofit/source/database/DatabaseHelper.java:99-106 | All three tables are emptied. The id counter restarts at 1 because the tables are dropped and re-created. The ledger invariant holds. |
| Database.DatabaseHelper.LogTransaction | app/src/main/java/pocketprofit/source/database/DatabaseHelper.java:120-134 | Exactly one record with the given fields is appended to the log. Nothing else changes, and the call reports success. |
| Database.DatabaseHelper.StockPurchase | app/src/main/java/pocketprofit/source/database/DatabaseHelper.java:151-165 | A lot with the next id, the given fields and the purchase date is appended. Ids stay ascending, the share count of the symbol rises by the quantity, and the other tables do not change. |
| Database.DatabaseHelper.LiquidateStock | app/src/main/java/pocketprofit/source/database/DatabaseHelper.java:179-248 | When more shares are asked for than are owned, it returns 0 and leaves every table as it was. Otherwise the table becomes the FIFO sale with its empty lots deleted, the result is the sale's proceeds, and the sale's realised change is logged for `latestDate`. The invariant "ids ascending, no empty lot" is kept. |
| Database.SellOldestFirst | app/src/main/java/pocketprofit/source/database/DatabaseHelper.java:197-231 | The outer cursor loop. It gives exactly the lots, proceeds and realised change of `FifoSell` on the snapshot, including the case where `sharesToSell` never reaches 0. |
| Database.SellFromLot | app/src/main/java/pocketprofit/source/database/DatabaseHelper.java:208-220 | The per-share loop on one lot. It sells min(quantity, shares asked) shares, or the whole lot when the count asked is below 1 because the count then never reaches 0. It adds the current price per share to the proceeds and (current − basis) per share to the change, and signals completion exactly when the count reaches 0. |
| Database.SaleSize | app/src/main/java/pocketprofit/source/database/DatabaseHelper.java:208-220 | How many shares the loops sell: the count asked for when it is at least 1, and every owned share otherwise. |
| Database.DatabaseHelper.UpdateCurrentPrice | app/src/main/java/pocketprofit/source/database/DatabaseHelper.java:655-667 | The table becomes `Repriced`: every lot of the symbol is given the new mark, unless the price is 0, in which case nothing changes. The other tables and fields are untouched. |
| Database.DatabaseHelper.LogTodaysStockSaleProfit | app/src/main/java/pocketprofit/source/database/DatabaseHelper.java:329-377 | The profit slot becomes `LoggedProfit` of the old slot. The lots and the log are untouched. |
| Database.DatabaseHelper.GetTodaysStockSaleProfit | app/src/main/java/pocketprofit/source/database/DatabaseHelper.java:284-316 | Returns the value read by `ProfitOn` and leaves the slot as `ProfitOn` says. Nothing else changes. |
| Database.DatabaseHelper.GetSharesBoughtToday | app/src/main/java/pocketprofit/source/database/DatabaseHelper.java:450-481 | The pushing loop returns exactly `SharesBoughtToday` of the table. |
| Database.SharesBoughtFrom | app/src/main/java/pocketprofit/source/database/DatabaseHelper.java:458-478 | One cursor row contributes its price paid once per remaining share when both its symbol and its date match, and nothing otherwise. |
| ProfitRecord.LoggedProfit | app/src/main/java/pocketprofit/source/database/DatabaseHelper.java:339-370 | After logging, the slot holds the given date. Its value is the old value plus `value` when the stored date matches, and `value` itself when the slot was empty or the date differs. |
| ProfitRecord.ProfitOn | app/src/main/java/pocketprofit/source/database/DatabaseHelper.java:294-315 | An empty slot reads 0 and stays empty. A slot of the same day returns its value and is unchanged. A slot of another day reads 0 and is rewritten to (date, 0). |
| ProfitRecord.StoredProfit | app/src/main/java/pocketprofit/source/database/DatabaseHelper.java:257-272 | The no-argument overload returns the stored value, or 0 for an empty slot, without checking the date. |
| ProfitRecord.LogAccumulates | app/src/main/java/pocketprofit/source/database/DatabaseHelper.java:339-360 | Two logs on the same day equal one log of the sum. |
| ProfitRecord.LogOnNewDayForgets | app/src/main/java/pocketprofit/source/database/DatabaseHelper.java:361-370 | On a new day, or an empty slot, the slot becomes (date, value). The previous day is discarded. |
| ProfitRecord.ReadAfterLog | app/src/main/java/pocketprofit/source/database/DatabaseHelper.java:284-377 | Reading on the day just logged returns the stored total and leaves the slot alone. |
| ProfitRecord.RolloverThenLog | app/src/main/java/pocketprofit/source/database/DatabaseHelper.java:284-377 | Reading before logging does not change the result of logging. |
| ProfitRecord.ReadIsIdempotent | app/src/main/java/pocketprofit/source/database/DatabaseHelper.java:284-316 | A second read on the same day returns the same value and leaves the same slot. |
| ProfitRecord.ReadLeavesDay | app/src/main/java/pocketprofit/source/database/DatabaseHelper.java:284-316 | After a read, the slot is empty or holds the date read, and the date-free overload returns the same value. |
| ProfitRecord.NonzeroReadIsThatDay | app/src/main/java/pocketprofit/source/database/DatabaseHelper.java:294-315 | A nonzero read implies that the slot held that very day. |
| ProfitRecord.RolloverExample | app/src/main/java/pocketprofit/source/database/DatabaseHelper.java:304-312 | A concrete rollover: yesterday's 50 reads 0 today, and the slot is reset to (today, 0). |
| LotQueries.ShareCount | app/src/main/java/pocketprofit/source/database/DatabaseHelper.java:758-778 | The SUM of the quantities of the symbol's lots, 0 over no rows (the function has no contract of its own). No single lot of the symbol holds more than the total (`LotWithinCount`). It adds up over concatenation and insertion (`AggregatesOfConcat`, `AggregatesOfInsert`) and is 0 for an unowned symbol (`UnownedAggregatesAreZero`). |
| LotQueries.StockCost | app/src/main/java/pocketprofit/source/database/DatabaseHelper.java:544-563 | The SUM of quantity × price paid over the symbol's lots, 0 over no rows (the function has no contract of its own). It adds up over concatenation and insertion (`AggregatesOfConcat`, `AggregatesOfInsert`), is 0 for an unowned symbol (`UnownedAggregatesAreZero`) and lies between count × lowest and count × highest price paid (`CostAtLeast`, `CostAtMost`). |
| LotQueries.StockEquity | app/src/main/java/pocketprofit/source/database/DatabaseHelper.java:515-534 | The SUM of quantity × current price over the symbol's lots, 0 over no rows (the function has no contract of its own). It adds up over concatenation and insertion (`AggregatesOfConcat`, `AggregatesOfInsert`), is 0 for an unowned symbol (`UnownedAggregatesAreZero`), is count × mark at a single mark (`EquityAtOneMark`), and a sale lowers it by exactly the proceeds (`FifoSale.ProceedsAreEquitySold`). |
| LotQueries.TotalEquity | app/src/main/java/pocketprofit/source/database/DatabaseHelper.java:572-587 | The SUM of quantity × current price over every lot, 0 over no rows (the function has no contract of its own). It adds up over concatenation (`AggregatesOfConcat`) and is what `Preferences.GetPortfolioValue` adds to the cash. |
| LotQueries.UserOwns | app/src/main/java/pocketprofit/source/database/DatabaseHelper.java:676-693 | COUNT(*) > 0: true exactly when some lot of the table has the symbol. With no empty lot this is the same as a positive share count (`OwnsIffShares`). |
| LotQueries.Repriced | app/src/main/java/pocketprofit/source/database/DatabaseHelper.java:655-667 | The UPDATE keeps the table's length. At a nonzero price it gives every lot of the symbol that mark, changes nothing else in it, and leaves every other lot as it was. At price 0 the WHERE clause matches nothing and every lot stays. |
| LotQueries.AverageCost | app/src/main/java/pocketprofit/source/database/DatabaseHelper.java:627-647 | The average times the share count is the cost basis. It is 0 when no share is held, because SQL returns NULL and the cursor reads it as 0. |
| LotQueries.AverageCostBetween | app/src/main/java/pocketprofit/source/database/DatabaseHelper.java:627-647 | The average cost lies between the lowest and the highest price paid for the symbol. |
| LotQueries.CostAtLeast | app/src/main/java/pocketprofit/source/database/DatabaseHelper.java:544-563 | A lower bound on every price paid, times the share count, bounds the cost from below. |
| LotQueries.CostAtMost | app/src/main/java/pocketprofit/source/database/DatabaseHelper.java:544-563 | An upper bound on every price paid, times the share count, bounds the cost from above. |
| LotQueries.RowCount | app/src/main/java/pocketprofit/source/database/DatabaseHelper.java:676-693 | The row count is positive exactly when some row has the symbol. |
| LotQueries.OwnsIffShares | app/src/main/java/pocketprofit/source/database/DatabaseHelper.java:676-693 | In a table without empty lots, `userOwns` holds exactly when the share count is positive. |
| LotQueries.UnownedAggregatesAreZero | app/src/main/java/pocketprofit/source/database/DatabaseHelper.java:515-647 | For an unowned symbol, the share count, cost, equity and average cost are all 0, not the -1 the comments document. |
| LotQueries.CurrentPrice | app/src/main/java/pocketprofit/source/database/DatabaseHelper.java:597-617 | It is -1 for an unowned symbol. Otherwise it is the mark of some lot of the symbol. |
| LotQueries.CompanyName | app/src/main/java/pocketprofit/source/database/DatabaseHelper.java:729-749 | It is absent (null) exactly when the symbol is not owned. A present name is the name of some lot of the symbol. |
| LotQueries.StocksOwned | app/src/main/java/pocketprofit/source/database/DatabaseHelper.java:386-406 | The keys are exactly the owned symbols, and each maps to its equity. |
| LotQueries.MarkGroups | app/src/main/java/pocketprofit/source/database/DatabaseHelper.java:488-505 | The (symbol, current price) groups: each occurring pair appears exactly once, and nothing else appears. |
| LotQueries.AllStockSymbols | app/src/main/java/pocketprofit/source/database/DatabaseHelper.java:488-505 | The symbols listed are exactly the owned ones, one entry per (symbol, mark) group. |
| LotQueries.ListedOnceAtOneMark | app/src/main/java/pocketprofit/source/database/DatabaseHelper.java:488-505 | A symbol whose lots all share one mark is listed exactly once. |
| LotQueries.SharesBoughtToday | app/src/main/java/pocketprofit/source/database/DatabaseHelper.java:450-481 | Each price occurs as many times as there are remaining shares of the symbol bought on that date at that price. The list is no longer than the share count. |
| LotQueries.RepeatMultiplicity | app/src/main/java/pocketprofit/source/database/DatabaseHelper.java:466-470 | Pushing a price once per remaining share gives that price with multiplicity equal to the quantity. |
| LotQueries.AggregatesOfConcat | app/src/main/java/pocketprofit/source/database/DatabaseHelper.java:515-587 | Share count, cost, equity, total equity and row count are additive over table concatenation. |
| LotQueries.AggregatesOfInsert | app/src/main/java/pocketprofit/source/database/DatabaseHelper.java:151-165 | Inserting one lot adds exactly its quantity, cost and value to its own symbol's aggregates and nothing to the others. Afterwards its symbol is owned. |
| LotQueries.MarkedAtIndex | app/src/main/java/pocketprofit/source/database/DatabaseHelper.java:655-667 | Re-pricing changes exactly the current price of each lot of the symbol and no other field or lot. |
| LotQueries.MarkedKeepsHoldings | app/src/main/java/pocketprofit/source/database/DatabaseHelper.java:655-667 | Re-pricing keeps every symbol's share count, cost and row count, and every other symbol's equity. |
| LotQueries.RepricedMarks | app/src/main/java/pocketprofit/source/database/DatabaseHelper.java:655-667 | After a nonzero re-price, every lot of the symbol carries the new mark, and `getCurrentPrice` returns it. |
| LotQueries.LotWithinCount | app/src/main/java/pocketprofit/source/database/DatabaseHelper.java:758-778 | Every lot of the symbol holds at most the SUM of the symbol's quantities. |
| LotQueries.EquityAtOneMark | app/src/main/java/pocketprofit/source/database/DatabaseHelper.java:515-534 | When all lots of the symbol share one mark, the equity is the share count times that mark. |
| FifoSale.FifoSell | app/src/main/java/pocketprofit/source/database/DatabaseHelper.java:197-231 | The sale keeps one row per input row. The other lemmas in this module state its meaning. |
| FifoSale.RemoveEmpty | app/src/main/java/pocketprofit/source/database/DatabaseHelper.java:235-242 | After the DELETE, no lot is empty and no row is added. |
| FifoSale.SaleShape | app/src/main/java/pocketprofit/source/database/DatabaseHelper.java:201-231 | A sale changes only quantities and never raises one. Lots of other symbols are untouched. |
| FifoSale.SaleConservesShares | app/src/main/java/pocketprofit/source/database/DatabaseHelper.java:201-231 | Shares after plus min(n, owned) equals shares before: exactly n are sold when n is at most the share count. |
| FifoSale.SaleKeepsOtherSymbols | app/src/main/java/pocketprofit/source/database/DatabaseHelper.java:191-194 | Another symbol's share count, cost, equity and row count are unchanged by the sale. |
| FifoSale.ProceedsAreEquitySold | app/src/main/java/pocketprofit/source/database/DatabaseHelper.java:203-214 | The returned amount is the current price summed per share sold: the equity before minus the equity after. |
| FifoSale.SaleOfNothing | app/src/main/java/pocketprofit/source/database/DatabaseHelper.java:201-231 | Selling 0 shares changes nothing and yields nothing. |
| FifoSale.UntouchedOnceFilled | app/src/main/java/pocketprofit/source/database/DatabaseHelper.java:197-231 | A lot is left exactly as it was when the lots of the symbol before it already hold the n shares sold: the loop stops once the order is filled. |
| FifoSale.SaleIsFifo | app/src/main/java/pocketprofit/source/database/DatabaseHelper.java:189-231 | When any later lot lost shares, every earlier lot of the symbol was emptied. Lots are consumed oldest first. |
| FifoSale.ChangeOfTodaysLots | app/src/main/java/pocketprofit/source/database/DatabaseHelper.java:209-210 | For lots bought on `latestDate`, the realised change is the proceeds minus the cost basis sold. |
| FifoSale.ChangeOfEarlierLots | app/src/main/java/pocketprofit/source/database/DatabaseHelper.java:211-213 | For lots bought earlier, the realised change is the proceeds minus the previous close per share sold. |
| FifoSale.ProceedsAtOneMark | app/src/main/java/pocketprofit/source/database/DatabaseHelper.java:203-214 | When all lots share one mark, the proceeds are (shares sold) × mark. |
| FifoSale.CleanupBeforeSale | app/src/main/java/pocketprofit/source/database/DatabaseHelper.java:235-242 | Deleting empty lots before a sale does not change its result once empty lots are deleted again, nor its proceeds or change. |
| FifoSale.RemoveEmptyKeepsAggregates | app/src/main/java/pocketprofit/source/database/DatabaseHelper.java:235-242 | The DELETE keeps every share count, cost, equity and the total equity. |
| FifoSale.RemoveEmptyMembers | app/src/main/java/pocketprofit/source/database/DatabaseHelper.java:235-242 | A lot survives the DELETE exactly when it was present with a positive quantity. |
| FifoSale.RemoveEmptyOfNoEmpty | app/src/main/java/pocketprofit/source/database/DatabaseHelper.java:235-242 | The DELETE does nothing to a table without empty lots. |
| FifoSale.RemoveEmptyIdempotent | app/src/main/java/pocketprofit/source/database/DatabaseHelper.java:235-242 | Running the DELETE twice is the same as once. |
| FifoSale.RemoveEmptyKeepsOrder | app/src/main/java/pocketprofit/source/database/DatabaseHelper.java:235-242 | The DELETE keeps the ids ascending. |
| FifoSale.SaleKeepsIds | app/src/main/java/pocketprofit/source/database/DatabaseHelper.java:221-242 | A sale followed by the DELETE keeps the ids ascending and below the next id. |
| FifoSale.FifoExample | app/src/main/java/pocketprofit/source/database/DatabaseHelper.java:179-248 | Selling 4 from lots of 3 and 2 shares empties the first lot, leaves 1 share in the second, and the DELETE removes the first. |
| FifoSale.ChangeExample | app/src/main/java/pocketprofit/source/database/DatabaseHelper.java:209-213 | A share bought today at 10 and marked 12 realises +2. A share bought earlier realises 12 − 15 = −3 against a previous close of 15. |
| TransactionLog.AllTransactions | app/src/main/java/pocketprofit/source/database/DatabaseHelper.java:413-419 | Every logged record is listed exactly once, newest first. |
| TransactionLog.AllTransactionsFor | app/src/main/java/pocketprofit/source/database/DatabaseHelper.java:428-435 | It lists exactly the records of the symbol. |
| TransactionLog.ListingForIsFiltered | app/src/main/java/pocketprofit/source/database/DatabaseHelper.java:413-435 | The per-symbol listing is the full newest-first listing filtered to the symbol. |
| TransactionLog.AppendedShownFirst | app/src/main/java/pocketprofit/source/database/DatabaseHelper.java:120-134 | A record just logged heads both listings, followed by the earlier listing. |
| TransactionLog.AppendOtherSymbol | app/src/main/java/pocketprofit/source/database/DatabaseHelper.java:120-134 | Logging a record of another symbol changes neither the listing nor the history test of this symbol. |
| TransactionLog.InStockTransactionHistory | app/src/main/java/pocketprofit/source/database/DatabaseHelper.java:703-720 | It holds exactly when some logged record has the symbol. |
| TransactionLog.IsTransactionHistoryEmpty | app/src/main/java/pocketprofit/source/database/DatabaseHelper.java:787-803 | It holds exactly when the history listing is empty. |
| Util.DayOfMonthSuffix | app/src/main/java/pocketprofit/source/Util.java:437-451 | The result is always one of "st", "nd", "rd" and "th". |
| Util.SuffixIsOrdinal | app/src/main/java/pocketprofit/source/Util.java:437-451 | For days 0 to 110 the suffix is the English ordinal suffix ("th" for 11–13, otherwise by the last digit). |
| Util.SuffixTable | app/src/main/java/pocketprofit/source/Util.java:437-451 | Within a month, "st" is given exactly for days 1, 21 and 31, "nd" for 2 and 22, and "rd" for 3 and 23. |
| Util.TodaysDate | app/src/main/java/pocketprofit/source/Util.java:396-403 | The date string is non-empty and ends with a digit of the year. |
| Util.TodaysDateFields | app/src/main/java/pocketprofit/source/Util.java:396-403 | Splitting on spaces gives the month, the day with its suffix and a comma, and the year. |
| Util.TodaysDateIsSet | app/src/main/java/pocketprofit/source/Util.java:71 | A date string is never the "not set" marker. |
| Util.NormalizeDate | app/src/main/java/pocketprofit/source/Util.java:411-427 | An input without the current year gives today's date. An input with the current year throws when it has fewer than three space-separated pieces, when its second piece has no comma, or when the text before the comma is not a 32-bit number. |
| Util.NormalizeMarketDate | app/src/main/java/pocketprofit/source/Util.java:411-427 | "Month D, YYYY" of the current year normalises to "Month D<suffix>, YYYY": the `getTodaysDate` format of the same day. |
| Util.NormalizeExample | app/src/main/java/pocketprofit/source/Util.java:415 | "September 18, 2020" normalises to "September 18th, 2020". |
| Util.MilitaryToStandardAsWritten | app/src/main/java/pocketprofit/source/Util.java:459-483 | Null maps to null. The other lemmas give the full table. |
| Util.AsWrittenMarksMorningAsPM | app/src/main/java/pocketprofit/source/Util.java:468-481 | As written, hours 10 and 11 are kept and marked PM, while the clock reading is AM. |
| Util.AsWrittenAgreesOutsideTenAndEleven | app/src/main/java/pocketprofit/source/Util.java:468-481 | For every other hour, the code agrees with the corrected conversion. |
| Util.MilitaryToStandard | app/src/main/java/pocketprofit/source/Util.java:459-483 | Null maps to null. This is the corrected conversion. |
| Util.MilitaryToStandardIsClock | app/src/main/java/pocketprofit/source/Util.java:459-483 | The corrected conversion of "HH:mm" is the 12-hour clock reading: hour 0 is 12 AM, 1–11 are AM, 12 is 12 PM, and 13–23 are h−12 PM. The minutes are kept verbatim. |
| Util.TwoDigitHour | app/src/main/java/pocketprofit/source/Util.java:463-465 | The zero-padded hour field has two digits. |
| Util.FormatVolume | app/src/main/java/pocketprofit/source/Util.java:195-215 | Below 1000 it is the plain number. Otherwise it uses K, M or B with mantissa × scale = volume, at least 1, and below 1000 except for B. |
| Util.VolumeUnitsAreMonotone | app/src/main/java/pocketprofit/source/Util.java:195-215 | A larger volume never gets a smaller unit. |
| Util.FormatMarketCap | app/src/main/java/pocketprofit/source/Util.java:158-176 | Always M, B or T with mantissa × scale = market cap. T exactly from 10^12 up, mantissa below 1000 except for T, and at least 1 except for M. |
| Util.Toggled | app/src/main/java/pocketprofit/source/Util.java:354-373 | Flips the symbol's membership and keeps every other symbol's. |
| Util.ToggleTwice | app/src/main/java/pocketprofit/source/Util.java:354-373 | Toggling twice restores the watchlist. |
| Util.JoinedAfter | app/src/main/java/pocketprofit/source/Util.java:256-264 | An unset (or "not set") date joined becomes today's date. A set one is kept. |
| Util.SetDateJoinedOnce | app/src/main/java/pocketprofit/source/Util.java:256-264 | A second `setDateJoined` is a no-op. |
| Util.Preferences.constructor | app/src/main/java/pocketprofit/source/Util.java:223-305 | A fresh store has no cash entry, an empty watchlist and no date joined. |
| Util.Preferences.GetCashAvailable | app/src/main/java/pocketprofit/source/Util.java:241-248 | Returns the stored cash, or 15000 when none is stored. |
| Util.Preferences.GetPortfolioValue | app/src/main/java/pocketprofit/source/Util.java:223-233 | Cash available plus the ledger's total equity. |
| Util.Preferences.UpdateCashAvailable | app/src/main/java/pocketprofit/source/Util.java:314-327 | Stores old cash (15000 if absent) plus the change. The watchlist and the date joined are kept. |
| Util.Preferences.ResetCashAvailable | app/src/main/java/pocketprofit/source/Util.java:285-292 | Stores 15000. Nothing else changes. |
| Util.Preferences.GetWatchlist | app/src/main/java/pocketprofit/source/Util.java:301-305 | Returns the stored watchlist, empty when none is stored. |
| Util.Preferences.ClearWatchlist | app/src/main/java/pocketprofit/source/Util.java:335-342 | The watchlist becomes empty. Nothing else changes. |
| Util.Preferences.UpdateWatchList | app/src/main/java/pocketprofit/source/Util.java:354-373 | The watchlist becomes `Toggled` of the old one. Nothing else changes. |
| Util.Preferences.CurrentlyOnWatchlist | app/src/main/java/pocketprofit/source/Util.java:383-389 | True exactly when the symbol is on the watchlist. |
| Util.Preferences.SetDateJoined | app/src/main/java/pocketprofit/source/Util.java:256-264 | The date joined becomes `JoinedAfter` of the old value and today's date. |
| Util.Preferences.GetDateJoined | app/src/main/java/pocketprofit/source/Util.java:273-277 | Returns the stored date joined, or today's date when none is stored. |
| JavaText.ParseIntOfIntToString | app/src/main/java/pocketprofit/source/Util.java:423 | `Integer.parseInt` inverts `"" + n` for every 32-bit n. |
| JavaText.DigitsValueOfNatToString | app/src/main/java/pocketprofit/source/Util.java:402 | The decimal digits of n read back as n. |
| JavaText.JavaRem | app/src/main/java/pocketprofit/source/Util.java:441 | Java's `%`: its magnitude is below the divisor's, and it takes the dividend's sign. |
| JavaText.JavaDiv | app/src/main/java/pocketprofit/source/activities/StockTransactionActivity.java:357-359 | Java's `/` truncates: quotient × divisor + remainder = dividend. |
| JavaText.IndexOf | app/src/main/java/pocketprofit/source/Util.java:423 | `indexOf` gives -1 exactly when the character is absent, and otherwise its first position. |
| JavaText.SplitOfThree | app/src/main/java/pocketprofit/source/Util.java:421-424 | `split` of three separator-free pieces gives those three pieces. |
| JavaText.SplitOfTwo | app/src/main/java/pocketprofit/source/Util.java:463-465 | `split` of two separator-free pieces gives those two pieces. |
| Trading.KeyDigit | app/src/main/java/pocketprofit/source/activities/StockTransactionActivity.java:322-355 | Each digit button maps to its digit. Any other view is the backspace (-1). |
| Trading.NextShares | app/src/main/java/pocketprofit/source/activities/StockTransactionActivity.java:357-365 | The count after one key. Backspace on a non-negative count drops its last decimal digit: the result r satisfies 10·r ≤ shares < 10·r + 10. After a digit key the count's last digit is that digit, whether it was appended or the count restarted at it. |
| Trading.DigitKey | app/src/main/java/pocketprofit/source/activities/StockTransactionActivity.java:360-365 | Typing d gives shares·10 + d, or just d once that would reach 10 000 000. |
| Trading.BackspaceUndoesDigit | app/src/main/java/pocketprofit/source/activities/StockTransactionActivity.java:357-365 | Backspace (division by 10) undoes a typed digit below the wrap. |
| Trading.KeypadKeepsBound | app/src/main/java/pocketprofit/source/activities/StockTransactionActivity.java:30 | After every key, 0 ≤ shares < MAX. |
| Trading.TypedDigitsGiveTheirValue | app/src/main/java/pocketprofit/source/activities/StockTransactionActivity.java:357-365 | From 0, typed digits give the decimal value they spell, as long as it stays below MAX. |
| Trading.DecimalValueIsNatural | app/src/main/java/pocketprofit/source/activities/StockTransactionActivity.java:360-365 | A typed digit string never has a negative value. |
| Trading.StockTransactionActivity.constructor | app/src/main/java/pocketprofit/source/activities/StockTransactionActivity.java:40-64 | The ticket starts at 0 shares with the order side, symbol, date and previous close of its launch. |
| Trading.StockTransactionActivity.KeypadClick | app/src/main/java/pocketprofit/source/activities/StockTransactionActivity.java:319-367 | Shares become `NextShares` of the old count and the key. The other fields stay as they were. |
| Trading.BuyVerdict | app/src/main/java/pocketprofit/source/activities/StockTransactionActivity.java:122-157 | A buy fills exactly when shares ≠ 0 and cash ≥ total. Zero shares is the first rejection. |
| Trading.SellVerdict | app/src/main/java/pocketprofit/source/activities/StockTransactionActivity.java:160-171 | A sell fills exactly when shares are held, shares ≠ 0 and shares ≤ held. "None held" is the first rejection. |
| Trading.SellFilledSellsExactly | app/src/main/java/pocketprofit/source/activities/StockTransactionActivity.java:160-174 | A filled sell passes `liquidateStock` a count of at least 1. Exactly that many shares leave the symbol, and no other symbol changes. |
| Trading.StockTransactionActivity.ExecuteTrade | app/src/main/java/pocketprofit/source/activities/StockTransactionActivity.java:106-185 | A rejected order changes nothing. A filled buy does four things in order: it appends the lot; it removes the symbol from the watchlist; it debits the total; it logs "Market Buy". Confetti shows exactly on the first trade. A filled sell does three things: it liquidates oldest first; it credits the proceeds returned, not the displayed total; it logs "Market Sell". |

## Left out

- SQLite plumbing is not modelled. That covers cursors, open and close, the DDL, SQL text and the singleton accessor. Inserts always succeed, so `stockPurchase` and `logTransaction` return true: a storage failure is outside the model.
- The row order of SQL queries that group or limit without an ORDER BY is unspecified. The model takes the first lot in id order, and the contracts of `CurrentPrice`, `CompanyName` and `AllStockSymbols` only say "some lot of the symbol".
- Doubles are modelled as reals. Rounding is not modelled, and neither is the `DecimalFormat` rendering of `formatVolume` and `formatMarketCap`: only their unit choice and the scaled mantissa are.
- `Calendar.getInstance()` is replaced by parameters: the month name, the day of the month and the year.
- `executeTrade` calls `getTodaysDate` twice, once for the lot and once for the log record. The model reads today's date once, as the parameter `today`, so two calls straddling midnight are not modelled.
- `executeTrade` parses the price and the total from the screen text. The model takes both as parameters.
- Out of scope:
  - network requests;
  - popups and toasts;
  - the confetti animation (only whether it is shown is modelled);
  - the other activities, adapters and the chart view.
- `getShareCount` reads the SUM into a Java int. The model's share count is an unbounded nat: no portfolio reachable through the keypad (fewer than 10 000 000 shares per order) is modelled as overflowing.
- The unused StockSplits table is not modelled.
- Only `getSharesBoughtToday` is modelled, not MainActivity's daily-change formula that consumes it.
- Only ASCII digits are modelled for `Integer.parseInt`: its non-ASCII (Unicode) digits are not.
- `getStockEquity`, `getStockCost` and `getAverageCost` are documented to return -1 for an unowned symbol, but their ungrouped aggregate queries always return a row holding NULL, read as 0. The model follows the code (see `LotQueries.UnownedAggregatesAreZero`). `getCurrentPrice` groups its rows, so its -1 is modelled.
- `logTodaysStockSaleProfit` is commented as resetting a new day to 0, but its code stores the incoming value. The model follows the code (`ProfitRecord.LogOnNewDayForgets`).
- Database.DatabaseHelper.StockPurchase: requires quantity >= 1. Lots are `nat` quantities with a "no empty lot" invariant, and the only caller passes the keypad count after rejecting 0.
- Database.DatabaseHelper.LiquidateStock: a count below 1 is not excluded. As the code's loop never reaches 0 in that case, every share of the symbol is sold (`Database.SaleSize`). Its only caller passes at least 1.
- Util.NormalizeDate: its own contract states the case without the current year and the paths that throw. The result for a well-formed "Month D, YYYY" is stated by the separate lemma `Util.NormalizeMarketDate`. A date that is already normalised is not a fixed point: "18th," does not parse, so it throws, as the code does.

## Findings

| source | as written | input that shows it | evidently intended | confidence | as-written member | corrected member |
|---|---|---|---|---|---|---|
| app/src/main/java/pocketprofit/source/Util.java:468-481 | any hour whose first digit is 1 or 2 is marked PM, so 10 and 11 become PM | "10:30" gives "10:30 PM" | "10:30 AM": PM exactly from hour 12 | not executed | Util.AsWrittenMarksMorningAsPM | Util.MilitaryToStandardIsClock |
