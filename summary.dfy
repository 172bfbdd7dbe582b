/** The closing figures of get_profit_and_loss.py: the options profit and
    loss, the total profit and loss and the return on investment, and the
    run of the whole script over its inputs. */
module Summary {
  import opened Wrappers
  import opened Sums
  import opened Window
  import opened Orders
  import opened Stocks
  import opened Report
  import opened Instruments
  import opened Dividends

  /** One options order with its timestamp and the cash it moved. */
  datatype OptionOrder = OptionOrder(date: int, value: real)

  function OptionDate(o: OptionOrder): int
  {
    o.date
  }

  function OptionValue(o: OptionOrder): real
  {
    o.value
  }

  /** The options profit and loss: the sum of `value` over the options
      orders in the window, or 0 when fetching the options history fails
      (`None`). */
  function OptionsPnl(history: Option<seq<OptionOrder>>, start: int, end: int): real
  {
    match history
    case None => 0.0
    case Some(os) => SumOf(Within(os, OptionDate, start, end), OptionValue)
  }

  /** A failed fetch counts as no options trading, and the figure depends
      only on which orders there are, not on their sequence. */
  lemma OptionsPnlProperties(os: seq<OptionOrder>, os': seq<OptionOrder>, start: int, end: int)
    requires multiset(os') == multiset(os)
    ensures OptionsPnl(None, start, end) == 0.0
    ensures OptionsPnl(Some(os'), start, end) == OptionsPnl(Some(os), start, end)
    ensures Within(os, OptionDate, start, end) == [] ==> OptionsPnl(Some(os), start, end) == 0.0
  {
    WithinPermutation(os', os, OptionDate, start, end);
    SumOfPermutation(Within(os', OptionDate, start, end), Within(os, OptionDate, start, end), OptionValue);
  }

  /** The return on investment: not computed when no starting allocation
      was given, a division by zero when the allocation given is zero, and
      otherwise the total as a percentage of the allocation. */
  datatype Roi = NotRequested | DivisionByZero | Percent(value: real)

  function ReturnOnInvestment(total: real, allocation: Option<real>): (r: Roi)
    ensures r == NotRequested <==> allocation.None?
    ensures r == DivisionByZero <==> allocation == Some(0.0)
    ensures r.Percent? ==> r.value * allocation.value == 100.0 * total
  {
    match allocation
    case None => NotRequested
    case Some(a) =>
      if a == 0.0 then DivisionByZero
      else
        PercentOf(total, a);
        Percent(total / a * 100.0)
  }

  lemma PercentOf(total: real, a: real)
    requires a != 0.0
    ensures (total / a * 100.0) * a == 100.0 * total
  {
    calc {
      (total / a * 100.0) * a;
      (total / a * a) * 100.0;
      { assert total / a * a == total; }
      total * 100.0;
    }
  }

  /** With a positive allocation the return has the sign of the total. */
  lemma RoiSign(total: real, a: real)
    requires a > 0.0
    ensures ReturnOnInvestment(total, Some(a)).Percent?
    ensures total > 0.0 <==> ReturnOnInvestment(total, Some(a)).value > 0.0
    ensures total == 0.0 <==> ReturnOnInvestment(total, Some(a)).value == 0.0
  {
    var v := ReturnOnInvestment(total, Some(a)).value;
    assert v * a == 100.0 * total;
    if v > 0.0 { assert v * a > 0.0; }
    if v < 0.0 { assert v * a < 0.0; }
  }

  /** The cash flow one line of orders.csv contributes: nothing when the
      line is skipped. */
  function RowCashFlow(r: Row): real
  {
    if IsSkipped(r) then 0.0 else Pl(OrderOf(r))
  }

  function RowDate(r: Row): int
  {
    r.date
  }

  lemma {:induction false} KeptCashFlow(rows: seq<Row>)
    ensures SumOf(KeptOrders(rows), Pl) == SumOf(rows, RowCashFlow)
  {
    if rows != [] {
      var n := |rows| - 1;
      KeptCashFlow(rows[..n]);
      var tail := if IsSkipped(rows[n]) then [] else [OrderOf(rows[n])];
      SumOfAppend(KeptOrders(rows[..n]), tail, Pl);
      assert SumOf(tail, Pl) == RowCashFlow(rows[n]) by {
        if tail != [] { assert tail[..0] == []; }
      }
    }
  }

  /** Timestamps count seconds since 1 January 1970, UTC. */
  const SecondsPerDay := 86400

  /** `January 1, 2012`, the start date the script uses when none is given. */
  const DefaultStart := 1325376000

  /** Midnight of the day of `t`: what a timestamp printed as `%B %d, %Y`
      and read back denotes. */
  function DayStart(t: int): (d: int)
    ensures d <= t < d + SecondsPerDay && d % SecondsPerDay == 0
  {
    t - t % SecondsPerDay
  }

  /** The start of the dividends and options windows. With the default
      start date, the script replaces it by the day of the first order in
      the window (the `iloc[0]` read), and the later windows use that day. */
  function PaymentsStart(start: int, window: seq<Row>): int
    requires start != DefaultStart || window != []
  {
    if start == DefaultStart then DayStart(window[0].date) else start
  }

  /** The figures the script prints. */
  datatype Figures = Figures(pnl: real, dividendsPaid: real, optionsPnl: real, totalPnl: real, roi: Roi)

  /** One run of the script. The order rows are cut to the window and
      itemized into the stock-wise report. The dividend records are tagged
      with tickers through a fresh copy of the stored symbol table (which is
      not saved afterwards), cut to their window and summed, and the options
      figure is added. Finally the return on investment is taken.

      With the default start date the window's first order fixes the start
      of the dividends and options windows, and an empty window fails (the
      `iloc[0]` read raises). The run also fails when there are no dividend
      records at all (the empty `concat` raises) or when a symbol lookup
      fails. The stock profit and loss is the cash flow of the kept rows in
      the window plus the value, at the last price, of the long position
      each ticker's orders leave. */
  method ProfitAndLoss(history: seq<Row>, quote: string -> real, dividends: seq<Dividend>, snapshot: map<string, string>,
                       lookup: string -> Option<string>, options: Option<seq<OptionOrder>>,
                       allocation: Option<real>, start: int, end: int)
    returns (window: seq<Row>, stockwise: seq<Stock>, r: Option<Figures>)
    ensures SortedByDate(window, RowDate)
    ensures multiset(window) == multiset(Within(history, RowDate, start, end))
    ensures window != [] ==> (window[0] in Within(history, RowDate, start, end)
      && forall x :: x in Within(history, RowDate, start, end) ==> window[0].date <= x.date)
    ensures multiset(stockwise) == multiset(SettledStocks(KeptOrders(window), quote))
    ensures forall i, j :: 0 <= i < j < |stockwise| ==> stockwise[i].netPl >= stockwise[j].netPl
    ensures r.None? <==> (start == DefaultStart && Within(history, RowDate, start, end) == [])
                         || dividends == [] || ResolveAll(snapshot, UrlsOf(dividends, DividendInstrument), lookup).None?
    ensures r.Some? ==> r.value.pnl == SumOf(Within(history, RowDate, start, end), RowCashFlow) + SumOf(stockwise, UnrealizedAt(quote))
    ensures r.Some? ==> r.value.pnl == SumOf(Within(history, RowDate, start, end), RowCashFlow)
                                        + HeldValue(KeptOrders(Within(history, RowDate, start, end)), quote)
    ensures r.Some? ==> ((start != DefaultStart || window != [])
      && r.value.dividendsPaid == SumOf(Within(dividends, DividendDate, PaymentsStart(start, window), end), DividendAmount)
      && r.value.optionsPnl == OptionsPnl(options, PaymentsStart(start, window), end))
    ensures r.Some? ==> r.value.totalPnl == r.value.pnl + r.value.dividendsPaid + r.value.optionsPnl
    ensures r.Some? ==> r.value.roi == ReturnOnInvestment(r.value.totalPnl, allocation)
  {
    window := FilterWindow(history, RowDate, start, end);
    if window != [] {
      FirstIsEarliest(window, Within(history, RowDate, start, end), RowDate);
    }
    var totalPl, totalTrades;
    stockwise, totalPl, totalTrades := StockwisePl(window, quote);
    KeptCashFlow(window);
    SumOfPermutation(window, Within(history, RowDate, start, end), RowCashFlow);
    assert HeldValue(KeptOrders(window), quote) == HeldValue(KeptOrders(Within(history, RowDate, start, end)), quote) by {
      KeptOrdersPermutation(window, Within(history, RowDate, start, end));
      HeldValuePermutation(KeptOrders(window), KeptOrders(Within(history, RowDate, start, end)), quote);
    }
    if start == DefaultStart && window == [] {
      assert |Within(history, RowDate, start, end)| == |window|;
      return window, stockwise, None;
    }
    assert Within(history, RowDate, start, end) != [] || start != DefaultStart by {
      if window != [] { assert window[0] in multiset(Within(history, RowDate, start, end)); }
    }
    var paymentsStart := PaymentsStart(start, window);
    if dividends == [] {
      return window, stockwise, None;
    }
    var cache := new SymbolCache(snapshot);
    var tagged := TagTickers(dividends, cache, lookup);
    if tagged.None? {
      return window, stockwise, None;
    }
    var divWindow, totals, dividendsPaid := DividendsPaid(tagged.value, paymentsStart, end);
    TaggingKeepsAmounts(dividends, tagged.value, paymentsStart, end);
    var optionsPnl := OptionsPnl(options, paymentsStart, end);
    var totalPnl := totalPl + dividendsPaid + optionsPnl;
    r := Some(Figures(totalPl, dividendsPaid, optionsPnl, totalPnl, ReturnOnInvestment(totalPnl, allocation)));
  }
}
