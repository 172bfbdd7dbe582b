/** The stock-wise report of get_profit_and_loss.py: the settled Stocks
    sorted by net profit and loss, highest first, with the totals of the
    last line of stockwise_pl.csv. */
module Report {
  import opened Sums
  import opened Sorting
  import opened Grouping
  import opened Orders
  import opened Stocks

  function NetPl(s: Stock): real
  {
    s.netPl
  }

  /** The sort key: ascending on the negated profit is descending on the
      profit. */
  function Descending(s: Stock): real
  {
    -s.netPl
  }

  function TradeCount(s: Stock): real
  {
    |s.orders| as real
  }

  /** The value a settled long position adds at the last price. */
  function Unrealized(s: Stock, quote: string -> real): real
  {
    if s.netShares > 0.0 then s.netShares * quote(s.symbol) else 0.0
  }

  function UnrealizedAt(quote: string -> real): Stock -> real
  {
    s => Unrealized(s, quote)
  }

  /** What `n` shares held at `price` add: their value when the position
      is long, nothing otherwise. */
  function LongValue(n: real, price: real): real
  {
    if n > 0.0 then n * price else 0.0
  }

  /** The value at the last price of the long position that the orders of
      ticker `t` in `kept` leave. */
  function HeldValueOf(kept: seq<Order>, quote: string -> real): string -> real
  {
    t => LongValue(SumOf(Group(kept, Ticker, t), ShareDelta), quote(t))
  }

  /** The value at the last price of every long position the orders leave,
      ticker by ticker; an independent statement of the unrealized part of
      the report's total. */
  function HeldValue(kept: seq<Order>, quote: string -> real): real
  {
    SumOf(DistinctKeys(kept, Ticker), HeldValueOf(kept, quote))
  }

  /** The settled fresh Stock of each ticker of `ks`. */
  function SettledOf(kept: seq<Order>, ks: seq<string>, quote: string -> real): seq<Stock>
  {
    seq(|ks|, i requires 0 <= i < |ks| => Settled(Stock(ks[i], Group(kept, Ticker, ks[i]), 0.0, 0.0), quote))
  }

  /** The Stocks the report lists: one settled Stock per distinct ticker of
      the kept orders, holding that ticker's orders. */
  function SettledStocks(kept: seq<Order>, quote: string -> real): seq<Stock>
  {
    SettledOf(kept, DistinctKeys(kept, Ticker), quote)
  }

  /** A fresh Stock, once settled, is worth at the last price exactly the
      long position its orders leave. */
  lemma UnrealizedOfSettled(t: string, orders: seq<Order>, quote: string -> real)
    ensures Unrealized(Settled(Stock(t, orders, 0.0, 0.0), quote), quote) == LongValue(SumOf(orders, ShareDelta), quote(t))
  {
    SettledFreshStock(t, orders, quote);
  }

  /** The value of the long positions of the settled Stocks is the value
      of the long positions their orders leave. */
  lemma {:induction false} HeldValueOfSettled(kept: seq<Order>, ks: seq<string>, quote: string -> real)
    ensures SumOf(SettledOf(kept, ks, quote), UnrealizedAt(quote)) == SumOf(ks, HeldValueOf(kept, quote))
  {
    if ks != [] {
      var n := |ks| - 1;
      var ss := SettledOf(kept, ks, quote);
      assert ss[..n] == SettledOf(kept, ks[..n], quote);
      HeldValueOfSettled(kept, ks[..n], quote);
      assert UnrealizedAt(quote)(ss[n]) == HeldValueOf(kept, quote)(ks[n]) by {
        UnrealizedOfSettled(ks[n], Group(kept, Ticker, ks[n]), quote);
      }
    }
  }

  /** The value of the long positions does not depend on the sequence of
      the orders. */
  lemma HeldValuePermutation(kept: seq<Order>, kept': seq<Order>, quote: string -> real)
    requires multiset(kept) == multiset(kept')
    ensures HeldValue(kept, quote) == HeldValue(kept', quote)
  {
    var ks, ks' := DistinctKeys(kept, Ticker), DistinctKeys(kept', Ticker);
    forall i | 0 <= i < |ks|
      ensures HeldValueOf(kept, quote)(ks[i]) == HeldValueOf(kept', quote)(ks[i])
    {
      GroupPermutation(kept, kept', Ticker, ks[i]);
      SumOfPermutation(Group(kept, Ticker, ks[i]), Group(kept', Ticker, ks[i]), ShareDelta);
    }
    SumOfPointwise(ks, HeldValueOf(kept, quote), HeldValueOf(kept', quote));
    DistinctKeysPermutation(kept, kept', Ticker);
    SumOfPermutation(ks, ks', HeldValueOf(kept', quote));
  }

  lemma {:induction false} TradeCountIsOrderCount(ss: seq<Stock>)
    ensures SumOf(ss, TradeCount) == |AllOrders(ss)| as real
  {
    if ss != [] {
      TradeCountIsOrderCount(ss[..|ss| - 1]);
    }
  }

  /** The loop that writes stockwise_pl.csv: the stocks sorted by net
      profit and loss, highest first, the total of the net profit and loss
      and the total number of trades. */
  method ReportTotals(values: seq<Stock>) returns (sorted: seq<Stock>, totalPl: real, totalTrades: int)
    ensures multiset(sorted) == multiset(values)
    ensures forall i, j :: 0 <= i < j < |sorted| ==> sorted[i].netPl >= sorted[j].netPl
    ensures totalPl == SumOf(values, NetPl)
    ensures totalTrades == |AllOrders(values)|
  {
    sorted := SortByKey(values, Descending);
    assert forall i, j :: 0 <= i < j < |sorted| ==> Descending(sorted[i]) <= Descending(sorted[j]);
    totalPl, totalTrades := 0.0, 0;
    for i := 0 to |sorted|
      invariant totalPl == SumOf(sorted[..i], NetPl)
      invariant totalTrades == |AllOrders(sorted[..i])|
    {
      assert sorted[..i + 1][..i] == sorted[..i];
      var numTrades := |sorted[i].orders|;
      totalPl := totalPl + sorted[i].netPl;
      totalTrades := totalTrades + numTrades;
    }
    assert sorted[..|sorted|] == sorted;
    SumOfPermutation(values, sorted, NetPl);
    SumOfPermutation(values, sorted, TradeCount);
    TradeCountIsOrderCount(values);
    TradeCountIsOrderCount(sorted);
  }

  /** A fresh Stock settles to the cash flow of its orders plus the value
      of its long position at the last price. */
  lemma SettledNetPl(s: Stock, quote: string -> real)
    requires s.netShares == 0.0 && s.netPl == 0.0
    ensures Settled(s, quote).orders == s.orders
    ensures Settled(s, quote).netPl == SumOf(s.orders, Pl) + Unrealized(Settled(s, quote), quote)
  {
    SettledFreshStock(s.symbol, s.orders, quote);
    assert s == Stock(s.symbol, s.orders, 0.0, 0.0);
  }

  /** Settling fresh Stocks keeps their orders, and their net profit and
      loss adds up to the cash flow of those orders plus the value of the
      long positions at the last price. */
  lemma {:induction false} SettledTotals(d: map<string, Stock>, r: map<string, Stock>, keys: seq<string>, quote: string -> real)
    requires forall k :: k in keys ==> k in d && k in r
    requires forall k :: k in keys ==> d[k].netShares == 0.0 && d[k].netPl == 0.0
    requires forall k :: k in keys ==> r[k] == Settled(d[k], quote)
    ensures AllOrders(ValuesOf(r, keys)) == AllOrders(ValuesOf(d, keys))
    ensures SumOf(ValuesOf(r, keys), NetPl)
      == SumOf(AllOrders(ValuesOf(d, keys)), Pl) + SumOf(ValuesOf(r, keys), UnrealizedAt(quote))
  {
    if keys != [] {
      var n := |keys| - 1;
      var k := keys[n];
      var vr, vd := ValuesOf(r, keys[..n]), ValuesOf(d, keys[..n]);
      SettledTotals(d, r, keys[..n], quote);
      assert ValuesOf(r, keys) == vr + [r[k]];
      assert ValuesOf(d, keys) == vd + [d[k]];
      SettledNetPl(d[k], quote);
      SumOfAppend(AllOrders(vd), d[k].orders, Pl);
    }
  }

  /** The stock-wise report from the lines of orders.csv: itemize, settle,
      sort and total. The report lists the settled Stock of every distinct
      ticker, highest first. Every kept line is counted as one trade, and
      the total profit and loss is the cash flow of all kept orders plus the
      value of the long positions at the last price. */
  method StockwisePl(rows: seq<Row>, quote: string -> real) returns (sorted: seq<Stock>, totalPl: real, totalTrades: int)
    ensures multiset(sorted) == multiset(SettledStocks(KeptOrders(rows), quote))
    ensures |sorted| == |DistinctKeys(KeptOrders(rows), Ticker)|
    ensures forall i, j :: 0 <= i < j < |sorted| ==> sorted[i].netPl >= sorted[j].netPl
    ensures totalTrades == |KeptOrders(rows)|
    ensures totalPl == SumOf(KeptOrders(rows), Pl) + SumOf(sorted, UnrealizedAt(quote))
    ensures totalPl == SumOf(KeptOrders(rows), Pl) + HeldValue(KeptOrders(rows), quote)
  {
    var stocks := ItemizeStocks(rows);
    var settled := CalculateItemizedPl(stocks, quote);
    var values := settled.Values();
    sorted, totalPl, totalTrades := ReportTotals(values);
    SettledTotals(stocks.entries, settled.entries, stocks.keys, quote);
    ItemizationPartitionsRows(stocks, rows);
    SumOfPermutation(AllOrders(stocks.Values()), KeptOrders(rows), Pl);
    SumOfPermutation(values, sorted, UnrealizedAt(quote));
    assert |sorted| == |multiset(values)|;
    assert values == SettledStocks(KeptOrders(rows), quote) by {
      forall i | 0 <= i < |values|
        ensures values[i] == SettledStocks(KeptOrders(rows), quote)[i]
      {
        assert stocks.keys[i] in stocks.entries;
      }
    }
    HeldValueOfSettled(KeptOrders(rows), stocks.keys, quote);
  }
}
