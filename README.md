# Robinhood profit and loss, modelled in Dafny

This project models the bookkeeping core of a small set of Robinhood
account scripts. They turn a brokerage account's order history into
profit-and-loss figures, and they apply a few decision rules to open
positions, pending orders and a watch list.

**Profit and loss (`get_profit_and_loss.py`)**
- An order's signed cash flow (`Order.pl`).
- Grouping order lines into one `Stock` per ticker (`itemize_stocks`).
- Settling each `Stock` into a net share count and a net profit and loss, valuing a long position at the last price and flagging a short one (`calculate_itemized_pl`).
- The date window.
- The stock-wise report and its totals.
- The dividends summed per ticker.
- The options figure, the total profit and loss, and the return on investment.

**Order-history helpers (`TW_robinhood_scripts.py`)**
- The instrument-URL to symbol table, filled lazily on a miss.
- The paginated order history.
- The per-order record.
- Pending orders and their cost.
- The table of open positions.
- The entry, stop-loss and take-profit signals.
- The "owned" and "pending" checks.

Numbers are `real`. Shares and prices are never IEEE floats here, and timestamps are `int` seconds since 1 January 1970, UTC.

Everything the scripts fetch over the network is a parameter:
- the last price is a function `string -> real`;
- the instrument endpoint is a function `string -> Option<string>`, where `None` means the request raised;
- the history pages are a sequence whose i-th element answers the i-th request.

Code that updates things in place is modelled as methods with loops and loop invariants. Each method is proved against a specification function, and the properties are lemmas about those functions:
- the instrument table is a class, `Instruments.SymbolCache`, whose `symbols` map `SymbolFor` updates;
- the `stocks` dict is a `StockDict`, with keys in insertion order plus a map;
- the accumulators of the report are method loops.

The decision rules are functions. These are `mark_pending_orders`, the signal predicates, and the owned and pending checks.

Modules, one per file:
- `Sums`: sums over sequences and their invariance under permutation.
- `Grouping`: keys in order of first appearance, per-key groups, partition.
- `Sorting`: a stable insertion sort by a numeric key.
- `Window`: the date window.
- `Orders`: `Order`, `int()` truncation, `Order.pl`.
- `Stocks`: `itemize_stocks`, `calculate_itemized_pl`.
- `Report`: the sorted report and its totals.
- `Instruments`: the symbol table.
- `Dividends`: ticker tagging, the window, per-ticker sums.
- `Summary`: options, total, ROI, and the whole run.
- `OrderHistory`: pagination, `order_item_info`, pending orders.
- `Positions`: `get_positions`, `check_if_ticker_is_owned`.
- `Signals`: `check_entry_sl_tp`.

Four behaviours of the code are easy to miss; the model follows the code in each:
- **Skipped lines.** `itemize_stocks` does not filter on the order state. It skips lines with an empty price, whatever their state, and lines whose ticker is the literal `symbol` (get_profit_and_loss.py:52). That test is meant for a header line, but `orders.csv` is written without one (get_profit_and_loss.py:110).
- **ROI denominator.** The return on investment divides by the starting allocation the user supplied (get_profit_and_loss.py:255). It does not use the capital the orders deployed.
- **Missing quotes.** `calculate_itemized_pl` has no fallback for a missing last price: the quote request simply raises (get_profit_and_loss.py:76-78). The model takes the price as a total function.
- **Options.** The options figure is the plain sum of `value` over the options orders in the window, with no threshold and no valuation of open contracts (get_profit_and_loss.py:241). `get_all_history_options_orders` is not defined in `TW_robinhood_scripts.py`, so as the scripts stand the call raises and the `except` (get_profit_and_loss.py:242-243) always makes the figure 0. The model keeps the fetch as a parameter, where `None` is that failure.

## Model

| member | source | states |
|---|---|---|
| Orders.Pl | get_profit_and_loss.py:25-29 | `Order.pl()`: the whole-share value of the order, paid out for a buy and received for every other side. Its sign and exactness are stated by `Orders.PlBounds` and `Orders.PlTruncationGap`. |
| Orders.Trunc | get_profit_and_loss.py:27-29 | `int()` of a share count truncates toward zero: a non-negative count loses less than one and never goes up; a negative one never goes down. |
| Orders.TruncatedValue | get_profit_and_loss.py:27-29 | With non-negative shares and price, the whole-share value is between zero and the full value, and equals it when the shares are whole. |
| Orders.PlBounds | get_profit_and_loss.py:25-29 | A buy never brings cash in and a sale never pays cash out. The order's cash flow lies between zero and the nominal shares times price, and equals the nominal flow when the shares are whole. |
| Orders.PlTruncationGap | get_profit_and_loss.py:25-29 | Dropping the fractional shares moves an order's cash flow toward zero by less than one share's price. |
| Stocks.KeptOrders | get_profit_and_loss.py:45-53 | No order kept from the file has the ticker "symbol", and there are never more orders than lines. |
| Stocks.KeptOrdersCount | get_profit_and_loss.py:47-60 | A line is kept as an order as many times as it occurs, unless its ticker is "symbol" or its price is empty. |
| Stocks.KeptOrdersPermutation | get_profit_and_loss.py:47-60 | The orders kept do not depend on the sequence of the lines. |
| Stocks.ValuesOf | get_profit_and_loss.py:64 | `values()` yields one Stock per key, the i-th being the entry of the i-th key in insertion order. |
| Stocks.ItemizeStocks | get_profit_and_loss.py:39-61 | One Stock per distinct ticker of the kept lines, in order of first appearance. Each Stock holds exactly that ticker's kept orders in file order, with nothing accumulated. |
| Stocks.ItemizationPartitionsRows | get_profit_and_loss.py:47-60 | Every kept line is an order of exactly one Stock, so the orders over all Stocks are the kept lines, and their number is the number of kept lines. |
| Stocks.Settled | get_profit_and_loss.py:64-85 | The state one pass of `calculate_itemized_pl` leaves in a Stock. Its outcomes are stated by `Stocks.SettledFreshStock`, `Stocks.NetSharesBoughtLessSold` and `Stocks.SettledIgnoresOrderSequence`. |
| Stocks.SettleStock | get_profit_and_loss.py:64-85 | Settling one Stock, with the loop over its orders proved to accumulate the net share movement and the cash flow of all its orders, then the long, short or flat rule. |
| Stocks.CalculateItemizedPl | get_profit_and_loss.py:63-85 | Every Stock of the dict is settled, and the tickers and their order are unchanged. |
| Stocks.NetSharesBoughtLessSold | get_profit_and_loss.py:66-69 | The net share count is the shares bought less the shares of every other side, fractional shares included. |
| Stocks.SettledIgnoresOrderSequence | get_profit_and_loss.py:64-71 | The same orders in any other sequence settle to the same net shares, net profit and loss and symbol. |
| Stocks.SettledFreshStock | get_profit_and_loss.py:74-85 | Long position: the realized cash flow grows by exactly net shares times the last price. Flat position: the net profit and loss is the realized cash flow. Short position: the realized cash flow is unchanged and the symbol gets exactly one trailing space. |
| Stocks.RoundTripExample | get_profit_and_loss.py:63-85 | Buying 10 at 5 and selling 10 at 8 settles flat with a profit of 30. |
| Stocks.LongPositionExample | get_profit_and_loss.py:74-81 | Five shares bought at 10, with a last price of 12, settle to a profit of 10. |
| Stocks.FractionalShareExample | get_profit_and_loss.py:25-29 | Half a share costs nothing in the cash flow, because shares are truncated, yet is valued in full as a long position. |
| Report.TradeCountIsOrderCount | get_profit_and_loss.py:120-124 | Summing the order counts of the Stocks counts every order once. |
| Report.ReportTotals | get_profit_and_loss.py:117-125 | The report lists the same Stocks, in non-increasing net profit and loss. `total_pl` is the sum of all net profit and loss, and `total_trades` is the number of all orders. |
| Report.SettledNetPl | get_profit_and_loss.py:71-81 | A fresh Stock settles to the cash flow of its orders plus the value of its long position at the last price. |
| Report.SettledTotals | get_profit_and_loss.py:63-85 | Over all Stocks, the net profit and loss adds up to the cash flow of all their orders plus the value of the long positions. |
| Report.UnrealizedOfSettled | get_profit_and_loss.py:74-85 | A settled fresh Stock adds, at the last price, exactly the value of the long position its orders leave, and nothing for a flat or short one. |
| Report.HeldValueOfSettled | get_profit_and_loss.py:63-85 | The unrealized value over the settled Stocks of some tickers is the sum, ticker by ticker, of the long position each ticker's orders leave. |
| Report.HeldValuePermutation | get_profit_and_loss.py:64-81 | The value of the long positions does not depend on the sequence of the orders. |
| Report.StockwisePl | get_profit_and_loss.py:110-125 | The report lists exactly the settled Stock of every distinct kept ticker, each holding that ticker's orders, sorted highest first. The trades total is the number of kept lines. The profit total is the cash flow of every kept order plus, for every ticker, the value at the last price of the long position its orders leave. |
| Sorting.Insert | get_profit_and_loss.py:117 | Inserting into a sorted sequence keeps it sorted and adds exactly the new element. |
| Sorting.SortByKey | get_profit_and_loss.py:117 | The sort yields an arrangement of the input ordered by the key. |
| Sums.SumOfAppend | get_profit_and_loss.py:123 | The accumulated sum over two stretches is the sum of the two accumulated sums. |
| Sums.SumOfPermutation | get_profit_and_loss.py:117-125 | A total does not depend on the order in which its terms are added, so sorting before summing changes nothing. |
| Grouping.DistinctKeys | get_profit_and_loss.py:55-57 | The tickers that get a Stock are free of duplicates and are exactly the tickers that occur. |
| Grouping.Group | get_profit_and_loss.py:59-60 | Every order appended to a ticker's Stock has that ticker. |
| Grouping.AppendRow | get_profit_and_loss.py:55-60 | One more line adds its ticker at the end if the ticker is new, and adds the order at the end of its ticker's orders. |
| Grouping.GroupCount | get_profit_and_loss.py:59-60 | A ticker's Stock holds each order of that ticker as often as it occurs, and no other order. |
| Grouping.GroupPermutation | get_profit_and_loss.py:59-60 | Rearranging the orders rearranges each ticker's orders and nothing more. |
| Grouping.DistinctKeysPermutation | get_profit_and_loss.py:55-57 | Rearranging the orders leaves the same set of tickers. |
| Grouping.GroupsPartition | get_profit_and_loss.py:167 | The groups of all distinct keys hold every row exactly once. |
| Grouping.SumOfGroups | get_profit_and_loss.py:167 | A sum over all rows equals the sum of the per-key sums. |
| Window.WithinCount | get_profit_and_loss.py:101 | The window keeps a row exactly as often as it occurs if its timestamp lies in `[start, end]`, and otherwise not at all. |
| Window.WithinKeeps | get_profit_and_loss.py:101 | Every row the window keeps is an input row with its timestamp in `[start, end]`. |
| Window.WithinSorted | get_profit_and_loss.py:99-101 | Slicing a table sorted by timestamp leaves it sorted. |
| Window.WithinPermutation | get_profit_and_loss.py:99-101 | The rows in the window do not depend on the rows' input order. |
| Window.FilterWindow | get_profit_and_loss.py:98-102 | The filtered orders are sorted by timestamp. They are exactly the input orders with `start <= date <= end`, each as often as in the input. |
| Instruments.Resolve | TW_robinhood_scripts.py:21-32 | A hit answers the stored symbol and leaves the table unchanged. A miss answers the endpoint's symbol and stores it under the URL alone. A failed request adds nothing. No entry is ever changed or dropped. |
| Instruments.ResolveIdempotent | TW_robinhood_scripts.py:21-32 | Resolving a URL a second time is a hit that returns the same symbol and table. |
| Instruments.SymbolCache.constructor | TW_robinhood_scripts.py:83 | The table starts as the stored snapshot. |
| Instruments.SymbolCache.SymbolFor | TW_robinhood_scripts.py:21-32 | The in-place update of the table agrees with `Resolve`, in both the answer and the new table. |
| Instruments.ResolveAllSymbols | TW_robinhood_scripts.py:86 | Resolving many URLs one after another answers one symbol per URL. Each symbol is the one the final table holds for that URL, and no earlier entry is changed. |
| Instruments.ResolveAllFails | TW_robinhood_scripts.py:23-28 | Resolving many URLs fails exactly when some URL is neither stored nor known to the endpoint. |
| Instruments.ResolveAllKeys | TW_robinhood_scripts.py:29 | Afterwards the table holds exactly the old URLs and the URLs asked for. |
| Instruments.ResolveAllAnswers | TW_robinhood_scripts.py:27-29 | Every entry added is the endpoint's answer for its URL. |
| Dividends.TagTickers | get_profit_and_loss.py:146-149 | Tagging fails exactly when a lookup fails. Otherwise each dividend keeps its amount and record date and carries the symbol the table now holds for its instrument, and the table only grows. |
| Dividends.TaggingKeepsAmounts | get_profit_and_loss.py:158-164 | Tagging does not change the amounts inside the record-date window. |
| Dividends.PerTicker | get_profit_and_loss.py:167 | One row per distinct ticker, free of duplicates, each holding the sum of that ticker's amounts. |
| Dividends.PerTickerSum | get_profit_and_loss.py:167 | The per-ticker sums add up to the sum of all amounts. |
| Dividends.SumOfTotals | get_profit_and_loss.py:184-197 | Rows holding the per-ticker sums add up to the sum of those tickers' payouts. |
| Dividends.DividendsPaid | get_profit_and_loss.py:158-197 | The window is sorted by record date and holds the payouts dated inside it. `dividends_paid` is the sum of the per-ticker sums, which equals the sum of every payout in the window. |
| Summary.OptionsPnl | get_profit_and_loss.py:233-243 | The options figure: the sum of `value` over the options orders in the window, or 0 when the fetch fails. Its properties are stated by `Summary.OptionsPnlProperties`. |
| Summary.OptionsPnlProperties | get_profit_and_loss.py:233-243 | A failed options fetch counts as 0. The figure does not depend on the order of the options orders, and is 0 when no order falls in the window. |
| Summary.ReturnOnInvestment | get_profit_and_loss.py:253-256 | No allocation means no ROI, and a zero allocation is a division by zero. Otherwise the ROI times the allocation is 100 times the total. |
| Summary.PercentOf | get_profit_and_loss.py:255 | `total / allocation * 100`, multiplied back by the allocation, is 100 times the total. |
| Summary.RoiSign | get_profit_and_loss.py:255 | With a positive allocation, the ROI is positive, zero or negative exactly when the total is. |
| Summary.DayStart | get_profit_and_loss.py:107 | The start of the day of a timestamp: midnight, at most one day before it, as `strftime('%B %d, %Y')` keeps only the day. |
| Window.FirstIsEarliest | get_profit_and_loss.py:97-101 | The first row of the sorted window is one of the window's rows, and no row of the window is earlier, so `iloc[0]` reads the earliest date. |
| Summary.KeptCashFlow | get_profit_and_loss.py:47-53 | The cash flow of the kept orders is the cash flow of all lines, with a skipped line contributing nothing. |
| Summary.ProfitAndLoss | get_profit_and_loss.py:94-256 | Given the order rows (fetching them is `OrderHistory.GetOrderHistory`): the window holds exactly the rows dated inside it, sorted by date. The report lists the settled Stock of every ticker in the window, highest first. The window's first row is its earliest. The run fails (`None`) exactly when the start date is the default `January 1, 2012` and the window is empty (`iloc[0]` raises), when there are no dividend records, or when a dividend's symbol lookup fails. Otherwise: the stock figure is the cash flow of the rows in the window plus, per ticker, the value of the long position its orders leave. The dividends and the options orders are cut to a window starting at the given start date, or, with the default start date, at midnight of the day of the first order in the window (`Summary.PaymentsStart`). Options fall back to 0; the total is the sum of the three; ROI is as above, with a zero allocation giving `DivisionByZero` where the script raises after printing the totals. |
| OrderHistory.AllHistoryPages | TW_robinhood_scripts.py:54-67 | The history is the results of every page up to and including the first page without a next link, in page order. It fails exactly when no page lacks a next link. |
| OrderHistory.GetAllHistoryOrders | TW_robinhood_scripts.py:54-67 | The paging loop produces exactly that history. |
| OrderHistory.MarkPendingOrders | TW_robinhood_scripts.py:69-74 | An order is pending when its state is "queued" or "confirmed". What follows from it is stated by `OrderHistory.InfoRows` and `OrderHistory.TickerPending`. |
| OrderHistory.OrderItemInfo | TW_robinhood_scripts.py:35-52 | The symbol comes from the shared table, and the call fails exactly when the lookup fails. Otherwise `shares` is the filled quantity, `avg_price` the average price and `date` the last transaction time, with the other fields copied. |
| OrderHistory.InfoRows | TW_robinhood_scripts.py:86-89 | One record per raw order, in order, unless a lookup fails. Each carries the table's final symbol for its instrument, and `is_pending` is set by `mark_pending_orders`. The table afterwards is exactly the one the lookups of all the orders' instruments produce: it gains exactly the URLs looked up, each with the endpoint's answer (`Instruments.ResolveAllKeys`, `Instruments.ResolveAllAnswers`). |
| OrderHistory.GetOrderHistory | TW_robinhood_scripts.py:77-99 | The records of the whole paginated history. The call fails exactly when paging fails, the history is empty (no `symbol` column to copy) or a lookup fails. The table saved afterwards is exactly the one the lookups of the history's instruments produce, so it gains exactly the URLs looked up, each with the endpoint's answer. |
| OrderHistory.PendingOrders | TW_robinhood_scripts.py:139-148 | The rows kept are exactly the pending rows of the history. Each cost is the order price times the order quantity, or not a number when either is not. |
| OrderHistory.CheckIfOrderPending | TW_robinhood_scripts.py:296-301 | The answer is "pending" exactly when some pending row has the ticker, and "not pending" otherwise. |
| OrderHistory.PendingSymbols | TW_robinhood_scripts.py:141 | Some pending row has the ticker exactly when some row marked pending does. |
| OrderHistory.SourceRow | TW_robinhood_scripts.py:141 | Every pending row is a row of the history marked pending. |
| OrderHistory.PendingRowFor | TW_robinhood_scripts.py:141 | Every row marked pending appears among the pending rows. |
| OrderHistory.TickerPending | TW_robinhood_scripts.py:69-74 | A ticker is reported pending exactly when one of its orders is in the state "queued" or "confirmed". |
| OrderHistory.HistoryRowToOrder | get_profit_and_loss.py:94-95 | A record with an average price and a real ticker becomes one order, with the filled quantity as shares and the average price as price. A record without an average price is not counted. |
| Positions.KeptAssets | TW_robinhood_scripts.py:110-128 | Every kept asset has a positive whole quantity, and there are no more assets than positions. Which positions are kept is stated by `Positions.KeptAssetsComplete` and `Positions.KeptAssetsSound`. |
| Positions.KeptAssetsComplete | TW_robinhood_scripts.py:112-128 | Every position whose quantity truncates to a positive whole number is kept, as an asset with the symbol its instrument resolves to, the truncated quantity, its average buy price and its update time. |
| Positions.KeptAssetsSound | TW_robinhood_scripts.py:112-128 | Every kept asset comes from a position with a positive truncated quantity whose instrument resolves to the asset's ticker, and carries that position's fields. |
| Positions.PositionOwned | TW_robinhood_scripts.py:112-134 | A position whose quantity truncates to a positive whole number makes the symbol of its instrument "owned". |
| Positions.KeptAssetsFails | TW_robinhood_scripts.py:112-118 | Building the assets fails exactly when some position with a positive whole quantity has an instrument that is neither stored nor known to the endpoint. |
| Positions.PositionsTable | TW_robinhood_scripts.py:130-134 | One row per distinct ticker, each an asset of that ticker. Rows are listed in order of first appearance (see Left out). |
| Positions.PositionsTableLatest | TW_robinhood_scripts.py:130 | A later position of a ticker overwrites an earlier one: a ticker's row is its last asset. |
| Positions.TabulatedRows | TW_robinhood_scripts.py:132-134 | The keyed dict, listed in key order, is the positions table, and it is empty exactly when no asset was kept. |
| Positions.GetPositions | TW_robinhood_scripts.py:104-137 | The loop's keyed dict yields the positions table of the kept assets. The call fails when a lookup fails or when nothing is kept. |
| Positions.CheckIfTickerIsOwned | TW_robinhood_scripts.py:289-294 | The answer is "owned" exactly when some position has the ticker, and "not owned" otherwise. |
| Positions.OwnedTicker | TW_robinhood_scripts.py:289-294 | A ticker is owned exactly when some kept position resolved to it. |
| Signals.EntryCheck | TW_robinhood_scripts.py:178-193 | The entry columns: the "No ... price" message when the quote is below 0.1; otherwise `True` exactly when the quote is usable and at or below the entry price. |
| Signals.StopLossCheck | TW_robinhood_scripts.py:195-223 | The stop-loss columns: the message when the quote is below 0.1; otherwise `True` exactly when the quote is usable and at or below the stop loss, or at or above it for SHORT. |
| Signals.TakeProfitCheck | TW_robinhood_scripts.py:225-253 | The take-profit columns: the message when the quote is below 0.1; otherwise `True` exactly when the quote is usable and at or above the take profit, or at or below it for SHORT. |
| Signals.SignalOf | TW_robinhood_scripts.py:255-284 | The nine columns of one row: the six predicates on the quotes they name, then the three hits, each true when one of its two columns is exactly `True`. Stated column by column by `Signals.CheckEntrySlTp`. |
| Signals.CheckEntrySlTp | TW_robinhood_scripts.py:176-286 | One signal row per watch-list row. Each of the six columns holds its own message text exactly when its quote is a number below 0.1. Otherwise it is `True` exactly when that quote has crossed its level, with stop loss and take profit reversed for SHORT, and `False` if not. Each hit is true exactly when one of its two quotes has crossed the level. |
| Signals.ShortMirrorsLong | TW_robinhood_scripts.py:195-253 | For a usable quote different from the level, SHORT answers the opposite of LONG for stop loss and for take profit. |
| Signals.NoQuotesNoHits | TW_robinhood_scripts.py:255-274 | With no usable quote nothing is a hit: a message never counts as `True`. |

## Left out

- `Robinhood.py`: the HTTP session, login and endpoint wrappers. Their answers are parameters.
- **Network, file I/O and output.** Not modelled: network requests, CSV and pickle files, `os.remove`, argument parsing and printed output. In particular, the write of `orders.csv` and its reading back are modelled only as the row type `Stocks.Row`.
- `OrderHistory.CsvRow`: the written CSV puts `state` before `date`, so the source's `Order` objects receive the two swapped. Neither field is read after the window filter, so the model keeps them unswapped.
- **Float rounding.** The `'{0:.2f}'` per-stock figure that `pnl` is later summed from is not modelled. Neither are the `round(..., 2)` of the total and of the ROI, nor the `purchase_price` rounding in `get_positions` (TW_robinhood_scripts.py:120). Arithmetic is exact.
- `total_cost` in `get_positions` (TW_robinhood_scripts.py:122) is computed but never used.
- The buy-and-hold QQQ comparison (get_profit_and_loss.py:202-225): it depends on downloaded and pickled market data.
- The accumulation of the options history: `get_all_history_options_orders` is not part of this model. Only the sum of `value` in the window and the fallback to 0 are.
- `check_prices` (TW_robinhood_scripts.py:151-174): it only fetches quotes into the table. The quotes are fields of `Signals.WatchRow`.
- **NaN.** `pd.to_numeric(..., errors='coerce')` and NaN are modelled as `None`, and every comparison with `None` is false.
- `Sorting.SortByKey`: stability on equal net profit and loss (which Python's `sorted` guarantees) is not stated. The sort is stable by construction, but only ordering and permutation are proved.
- `Dividends.PerTicker`: `groupby` lists tickers in sorted order, while the model lists them in order of first appearance. Only the per-ticker sums and their total are used later.
- **The `df_pnl` join** (get_profit_and_loss.py:169-194). It is modelled only through the sum of `div_payouts` it yields. The dropped `Totals` row is not modelled, since the report's total is kept separately.
- `Summary.ReturnOnInvestment`: the global `roi` flag and the `starting_allocation` it guards are modelled together as an optional allocation.
- `Summary.ProfitAndLoss`: takes the order rows as input, so the failures of `get_order_history` (get_profit_and_loss.py:93) are stated by `OrderHistory.GetOrderHistory` instead. A zero starting allocation gives `DivisionByZero`, where the script raises `ZeroDivisionError` after printing the totals (get_profit_and_loss.py:255). The script reads a fresh copy of the stored symbol table for the dividends (get_profit_and_loss.py:144) and never saves it, so the model takes that table as a value and builds its own `SymbolCache`. The default start date is recognised by its value: the script compares the date string, so the same date written another way is not relabelled. The report's lines are fixed as a multiset; the order of Stocks with equal net profit and loss is not.
- `OrderHistory.PendingOrders`: states membership in both directions and the cost of every row, but not that the rows keep their order and multiplicity.
- `Positions.PositionsTable`: `from_records` on a dict lists its keys sorted, so the source's table is in ticker order; the model lists tickers in order of first appearance. Only membership is used later (`check_if_ticker_is_owned`).
- `Positions.KeptAssetsSound`: states which positions are kept, not that the assets keep the positions' input order. The order matters only for which of two positions of one ticker ends up in the table; `Positions.PositionsTableLatest` states that rule on the assets.
- `Positions.GetPositions`: the `KeyError` that an empty table raises on `date_purchased` is modelled as `None`. The pickle is read again on every iteration, so each lookup starts from the same stored table; the model resolves every position against that snapshot.
- `Stocks.SettledFreshStock`: states the net shares as the net share movement, and leaves its form as shares bought less shares sold to `Stocks.NetSharesBoughtLessSold`.
- `Orders.Trunc`: models `int()` on finite values only. Infinities and NaN shares are not modelled.
- `Instruments.Resolve`: a symbol request that raises is modelled as a failed lookup (`None`) that ends the caller. The source has no handler, so the exception propagates.
