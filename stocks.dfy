/** The per-ticker accumulator of get_profit_and_loss.py: the order rows are
    grouped into one Stock per ticker (`itemize_stocks`), and each Stock is
    settled into a net share count and a net profit and loss
    (`calculate_itemized_pl`). */
module Stocks {
  import opened Wrappers
  import opened Sums
  import opened Grouping
  import opened Orders

  /** One line of orders.csv: side, ticker, share count, price cell (`None`
      when the cell is empty), date and state. */
  datatype Row = Row(side: string, ticker: string, shares: real, price: Option<real>, date: int, state: string)

  /** A line whose ticker is the literal "symbol" (the test is meant for a
      header line, which orders.csv is written without) or whose price is
      empty is skipped. */
  predicate IsSkipped(r: Row)
  {
    r.ticker == "symbol" || r.price.None?
  }

  function OrderOf(r: Row): Order
    requires r.price.Some?
  {
    Order(r.side, r.ticker, r.shares, r.price.value, r.date, r.state)
  }

  /** The orders built from the lines that are not skipped, in file order. */
  function KeptOrders(rows: seq<Row>): (os: seq<Order>)
    ensures |os| <= |rows|
    ensures forall i :: 0 <= i < |os| ==> os[i].symbol != "symbol"
  {
    if rows == [] then []
    else
      var n := |rows| - 1;
      KeptOrders(rows[..n]) + (if IsSkipped(rows[n]) then [] else [OrderOf(rows[n])])
  }

  /** The only line that yields the order `o` when it is kept. */
  function RowOf(o: Order): Row
  {
    Row(o.side, o.symbol, o.shares, Some(o.price), o.date, o.state)
  }

  /** An order is kept as often as its line occurs, unless its ticker is
      "symbol". */
  lemma {:induction false} KeptOrdersCount(rows: seq<Row>, o: Order)
    ensures multiset(KeptOrders(rows))[o] == if o.symbol == "symbol" then 0 else multiset(rows)[RowOf(o)]
  {
    if rows != [] {
      var n := |rows| - 1;
      KeptOrdersCount(rows[..n], o);
      KeptRow(rows[n], o);
      assert rows == rows[..n] + [rows[n]];
      assert multiset(rows) == multiset(rows[..n]) + multiset{rows[n]};
      if IsSkipped(rows[n]) {
        assert KeptOrders(rows) == KeptOrders(rows[..n]);
      } else {
        assert KeptOrders(rows) == KeptOrders(rows[..n]) + [OrderOf(rows[n])];
      }
    }
  }

  /** A line yields the order `o` exactly when it is the line of `o` and
      the ticker of `o` is not "symbol". */
  lemma KeptRow(r: Row, o: Order)
    ensures !IsSkipped(r) && OrderOf(r) == o <==> o.symbol != "symbol" && r == RowOf(o)
  {
  }

  /** The orders kept do not depend on the sequence of the lines. */
  lemma KeptOrdersPermutation(rows: seq<Row>, rows': seq<Row>)
    requires multiset(rows) == multiset(rows')
    ensures multiset(KeptOrders(rows)) == multiset(KeptOrders(rows'))
  {
    forall o ensures multiset(KeptOrders(rows))[o] == multiset(KeptOrders(rows'))[o] {
      KeptOrdersCount(rows, o);
      KeptOrdersCount(rows', o);
    }
    SameCounts(multiset(KeptOrders(rows)), multiset(KeptOrders(rows')));
  }

  function Ticker(o: Order): string
  {
    o.symbol
  }

  /** A ticker's ledger: its orders and what settling them produced. */
  datatype Stock = Stock(symbol: string, orders: seq<Order>, netShares: real, netPl: real)

  /** A Stock as its constructor leaves it: no orders, nothing accumulated. */
  function NewStock(symbol: string): Stock
  {
    Stock(symbol, [], 0.0, 0.0)
  }

  /** The stocks dict: `entries` maps each ticker to its Stock, and `keys`
      lists the tickers in insertion order, the order `values()` yields. */
  datatype StockDict = StockDict(keys: seq<string>, entries: map<string, Stock>) {

    ghost predicate Valid()
    {
      NoDuplicates(keys) && forall k :: k in entries <==> k in keys
    }

    function Values(): seq<Stock>
      requires Valid()
    {
      ValuesOf(entries, keys)
    }
  }

  function ValuesOf(entries: map<string, Stock>, keys: seq<string>): (vs: seq<Stock>)
    requires forall k :: k in keys ==> k in entries
    ensures |vs| == |keys|
    ensures forall i :: 0 <= i < |keys| ==> vs[i] == entries[keys[i]]
  {
    if keys == [] then [] else ValuesOf(entries, keys[..|keys| - 1]) + [entries[keys[|keys| - 1]]]
  }

  /** What `itemize_stocks` promises: one Stock per distinct kept ticker, in
      order of first appearance, holding that ticker's kept orders in file
      order and nothing accumulated yet. */
  ghost predicate IsItemizationOf(d: StockDict, rows: seq<Row>)
  {
    && d.Valid()
    && d.keys == DistinctKeys(KeptOrders(rows), Ticker)
    && forall t :: t in d.entries ==>
         d.entries[t] == Stock(t, Group(KeptOrders(rows), Ticker, t), 0.0, 0.0)
  }

  lemma KeptOrdersAppend(rows: seq<Row>, i: nat)
    requires i < |rows|
    ensures IsSkipped(rows[i]) ==> KeptOrders(rows[..i + 1]) == KeptOrders(rows[..i])
    ensures !IsSkipped(rows[i]) ==> KeptOrders(rows[..i + 1]) == KeptOrders(rows[..i]) + [OrderOf(rows[i])]
  {
    assert rows[..i + 1][..i] == rows[..i];
  }

  /** The dict built so far itemizes the orders `kept`. */
  ghost predicate Itemizes(keys: seq<string>, entries: map<string, Stock>, kept: seq<Order>)
  {
    && keys == DistinctKeys(kept, Ticker)
    && (forall t :: t in entries <==> t in keys)
    && forall t :: t in entries ==> entries[t] == Stock(t, Group(kept, Ticker, t), 0.0, 0.0)
  }

  /** One step of `itemize_stocks`: create the Stock if the ticker is new,
      then append the order to it. */
  lemma ItemizesAppend(keys: seq<string>, entries: map<string, Stock>, kept: seq<Order>, order: Order)
    requires Itemizes(keys, entries, kept)
    ensures var t := order.symbol;
      var keys' := if t in entries then keys else keys + [t];
      var entries' := if t in entries then entries else entries[t := NewStock(t)];
      Itemizes(keys', entries'[t := entries'[t].(orders := entries'[t].orders + [order])], kept + [order])
  {
    var t := order.symbol;
    AppendRow(kept, order, Ticker);
    if t !in entries {
      GroupOfAbsentKey(kept, Ticker, t);
    }
    var keys' := if t in entries then keys else keys + [t];
    var entries' := if t in entries then entries else entries[t := NewStock(t)];
    var after := entries'[t := entries'[t].(orders := entries'[t].orders + [order])];
    assert keys' == DistinctKeys(kept + [order], Ticker);
    forall u | u in after
      ensures after[u] == Stock(u, Group(kept + [order], Ticker, u), 0.0, 0.0)
    {
      if u != t {
        assert after[u] == entries[u];
      }
    }
  }

  method ItemizeStocks(rows: seq<Row>) returns (stocks: StockDict)
    ensures IsItemizationOf(stocks, rows)
  {
    var keys: seq<string> := [];
    var entries: map<string, Stock> := map[];
    for i := 0 to |rows|
      invariant Itemizes(keys, entries, KeptOrders(rows[..i]))
    {
      KeptOrdersAppend(rows, i);
      var line := rows[i];
      if line.ticker == "symbol" || line.price == None {
        continue;
      }
      var order := OrderOf(line);
      ItemizesAppend(keys, entries, KeptOrders(rows[..i]), order);
      var ticker := line.ticker;
      if ticker !in entries {
        entries := entries[ticker := NewStock(ticker)];
        keys := keys + [ticker];
      }
      entries := entries[ticker := entries[ticker].(orders := entries[ticker].orders + [order])];
    }
    assert rows[..|rows|] == rows;
    stocks := StockDict(keys, entries);
  }

  /** What settling a Stock produces: every order moves the share count and
      adds its cash flow; a long position is then valued at the last price,
      and a short one (shares that entered without a buy) is flagged by a
      trailing space on the symbol. */
  function Settled(s: Stock, quote: string -> real): Stock
  {
    var shares := s.netShares + SumOf(s.orders, ShareDelta);
    var pl := s.netPl + SumOf(s.orders, Pl);
    if shares > 0.0 then Stock(s.symbol, s.orders, shares, pl + shares * quote(s.symbol))
    else if shares < 0.0 then Stock(s.symbol + " ", s.orders, shares, pl)
    else Stock(s.symbol, s.orders, shares, pl)
  }

  /** The body of the outer loop of `calculate_itemized_pl`, for one Stock.
      `quote` stands for the last-price request made for a long position. */
  method SettleStock(s: Stock, quote: string -> real) returns (r: Stock)
    ensures r == Settled(s, quote)
  {
    var netShares, netPl := s.netShares, s.netPl;
    for i := 0 to |s.orders|
      invariant netShares == s.netShares + SumOf(s.orders[..i], ShareDelta)
      invariant netPl == s.netPl + SumOf(s.orders[..i], Pl)
    {
      SumOfStep(s.orders, i, ShareDelta);
      SumOfStep(s.orders, i, Pl);
      var order := s.orders[i];
      if IsBuy(order) {
        netShares := netShares + order.shares;
      } else {
        netShares := netShares - order.shares;
      }
      netPl := netPl + Pl(order);
    }
    assert s.orders[..|s.orders|] == s.orders;
    SettledCases(s, quote, netShares, netPl);
    if netShares > 0.0 {
      var lastPrice := quote(s.symbol);
      r := Stock(s.symbol, s.orders, netShares, netPl + netShares * lastPrice);
    } else if netShares < 0.0 {
      r := Stock(s.symbol + " ", s.orders, netShares, netPl);
    } else {
      r := Stock(s.symbol, s.orders, netShares, netPl);
    }
  }

  /** `Settled` by cases, given the totals of the orders. */
  lemma SettledCases(s: Stock, quote: string -> real, shares: real, pl: real)
    requires shares == s.netShares + SumOf(s.orders, ShareDelta)
    requires pl == s.netPl + SumOf(s.orders, Pl)
    ensures shares > 0.0 ==> Settled(s, quote) == Stock(s.symbol, s.orders, shares, pl + shares * quote(s.symbol))
    ensures shares < 0.0 ==> Settled(s, quote) == Stock(s.symbol + " ", s.orders, shares, pl)
    ensures shares == 0.0 ==> Settled(s, quote) == Stock(s.symbol, s.orders, shares, pl)
  {
  }

  /** `calculate_itemized_pl`: settles every Stock of the dict; the tickers
      and their order stay as they are. */
  method CalculateItemizedPl(stocks: StockDict, quote: string -> real) returns (r: StockDict)
    requires stocks.Valid()
    ensures r.Valid() && r.keys == stocks.keys
    ensures forall t :: t in r.entries ==> r.entries[t] == Settled(stocks.entries[t], quote)
  {
    var entries := stocks.entries;
    var keys := stocks.keys;
    for i := 0 to |keys|
      invariant entries.Keys == stocks.entries.Keys
      invariant forall j :: 0 <= j < i ==> entries[keys[j]] == Settled(stocks.entries[keys[j]], quote)
      invariant forall j :: i <= j < |keys| ==> entries[keys[j]] == stocks.entries[keys[j]]
    {
      var settled := SettleStock(entries[keys[i]], quote);
      ghost var before := entries;
      entries := entries[keys[i] := settled];
      forall j | 0 <= j < |keys| && j != i
        ensures entries[keys[j]] == before[keys[j]]
      {
        assert keys[j] != keys[i];
      }
    }
    forall t | t in entries
      ensures entries[t] == Settled(stocks.entries[t], quote)
    {
      var j :| 0 <= j < |keys| && keys[j] == t;
    }
    r := StockDict(keys, entries);
  }

  function Shares(o: Order): real
  {
    o.shares
  }

  /** The buy orders, and the orders of every other side, in order. */
  function Buys(os: seq<Order>): seq<Order>
  {
    if os == [] then [] else Buys(os[..|os| - 1]) + (if IsBuy(os[|os| - 1]) then [os[|os| - 1]] else [])
  }

  function Sells(os: seq<Order>): seq<Order>
  {
    if os == [] then [] else Sells(os[..|os| - 1]) + (if IsBuy(os[|os| - 1]) then [] else [os[|os| - 1]])
  }

  /** The net share movement is the shares bought less the shares sold,
      fractions included. */
  lemma {:induction false} NetSharesBoughtLessSold(os: seq<Order>)
    ensures SumOf(os, ShareDelta) == SumOf(Buys(os), Shares) - SumOf(Sells(os), Shares)
  {
    if os != [] {
      var n := |os| - 1;
      NetSharesBoughtLessSold(os[..n]);
      SumOfAppend(Buys(os[..n]), if IsBuy(os[n]) then [os[n]] else [], Shares);
      SumOfAppend(Sells(os[..n]), if IsBuy(os[n]) then [] else [os[n]], Shares);
      assert SumOf([os[n]], Shares) == os[n].shares by {
        assert [os[n]][..0] == [];
      }
    }
  }

  /** Settling does not depend on the sequence of the orders: the same
      orders in any other arrangement settle to the same position, profit
      and loss and symbol. */
  lemma SettledIgnoresOrderSequence(s: Stock, s': Stock, quote: string -> real)
    requires s'.symbol == s.symbol && s'.netShares == s.netShares && s'.netPl == s.netPl
    requires multiset(s'.orders) == multiset(s.orders)
    ensures Settled(s', quote).netShares == Settled(s, quote).netShares
    ensures Settled(s', quote).netPl == Settled(s, quote).netPl
    ensures Settled(s', quote).symbol == Settled(s, quote).symbol
  {
    assert SumOf(s'.orders, ShareDelta) == SumOf(s.orders, ShareDelta) by {
      SumOfPermutation(s.orders, s'.orders, ShareDelta);
    }
    assert SumOf(s'.orders, Pl) == SumOf(s.orders, Pl) by {
      SumOfPermutation(s.orders, s'.orders, Pl);
    }
  }

  /** A freshly itemized Stock settles as follows: its net shares are the
      net share movement of its orders (the shares bought less the shares
      sold, by `NetSharesBoughtLessSold`); a long position adds exactly its
      shares times the last price to the realized cash flow; a flat position
      keeps the realized cash flow; a short position keeps the realized cash
      flow and gets exactly one trailing space on its symbol. The orders are
      kept. */
  lemma SettledFreshStock(symbol: string, orders: seq<Order>, quote: string -> real)
    ensures Settled(Stock(symbol, orders, 0.0, 0.0), quote).orders == orders
    ensures SumOf(orders, ShareDelta) > 0.0 ==>
      Settled(Stock(symbol, orders, 0.0, 0.0), quote)
      == Stock(symbol, orders, SumOf(orders, ShareDelta), SumOf(orders, Pl) + SumOf(orders, ShareDelta) * quote(symbol))
    ensures SumOf(orders, ShareDelta) == 0.0 ==>
      Settled(Stock(symbol, orders, 0.0, 0.0), quote) == Stock(symbol, orders, 0.0, SumOf(orders, Pl))
    ensures SumOf(orders, ShareDelta) < 0.0 ==>
      Settled(Stock(symbol, orders, 0.0, 0.0), quote) == Stock(symbol + " ", orders, SumOf(orders, ShareDelta), SumOf(orders, Pl))
  {
    var shares := SumOf(orders, ShareDelta);
    var pl := SumOf(orders, Pl);
    var r := Settled(Stock(symbol, orders, 0.0, 0.0), quote);
    assert 0.0 + shares == shares && 0.0 + pl == pl;
    assert r == if shares > 0.0 then Stock(symbol, orders, shares, pl + shares * quote(symbol))
                else if shares < 0.0 then Stock(symbol + " ", orders, shares, pl)
                else Stock(symbol, orders, shares, pl);
  }

  /** All orders of a sequence of stocks, stock after stock. */
  function AllOrders(ss: seq<Stock>): seq<Order>
  {
    if ss == [] then [] else AllOrders(ss[..|ss| - 1]) + ss[|ss| - 1].orders
  }

  lemma {:induction false} AllOrdersOfGroups(entries: map<string, Stock>, keys: seq<string>, kept: seq<Order>)
    requires forall k :: k in keys ==> k in entries && entries[k].orders == Group(kept, Ticker, k)
    ensures AllOrders(ValuesOf(entries, keys)) == ConcatGroups(kept, Ticker, keys)
  {
    if keys != [] {
      var n := |keys| - 1;
      AllOrdersOfGroups(entries, keys[..n], kept);
      assert ValuesOf(entries, keys)[..n] == ValuesOf(entries, keys[..n]);
    }
  }

  /** The stocks of `itemize_stocks` partition the kept rows: every kept
      row is an order of exactly one stock, so the number of orders over
      all stocks is the number of kept rows. */
  lemma ItemizationPartitionsRows(d: StockDict, rows: seq<Row>)
    requires IsItemizationOf(d, rows)
    ensures multiset(AllOrders(d.Values())) == multiset(KeptOrders(rows))
    ensures |AllOrders(d.Values())| == |KeptOrders(rows)|
  {
    var kept := KeptOrders(rows);
    AllOrdersOfGroups(d.entries, d.keys, kept);
    GroupsPartition(kept, Ticker);
    assert |multiset(AllOrders(d.Values()))| == |multiset(kept)|;
  }

  /** Buying 10 shares at 5 and selling them at 8 settles flat with a
      profit of 30. */
  lemma RoundTripExample(quote: string -> real)
    ensures var orders := [Order("buy", "ABC", 10.0, 5.0, 1, "filled"), Order("sell", "ABC", 10.0, 8.0, 2, "filled")];
      Settled(Stock("ABC", orders, 0.0, 0.0), quote) == Stock("ABC", orders, 0.0, 30.0)
  {
    var orders := [Order("buy", "ABC", 10.0, 5.0, 1, "filled"), Order("sell", "ABC", 10.0, 8.0, 2, "filled")];
    assert orders[..1] == [orders[0]] && orders[..1][..0] == [];
    assert Trunc(10.0) == 10;
    assert Pl(orders[0]) == -50.0 && Pl(orders[1]) == 80.0;
    assert SumOf(orders, Pl) == 30.0;
    assert SumOf(orders, ShareDelta) == 0.0;
  }

  /** Holding 5 shares bought at 10 with a last price of 12 is worth 10. */
  lemma LongPositionExample(quote: string -> real)
    requires quote("ABC") == 12.0
    ensures Settled(Stock("ABC", [Order("buy", "ABC", 5.0, 10.0, 1, "filled")], 0.0, 0.0), quote).netPl == 10.0
  {
    var orders := [Order("buy", "ABC", 5.0, 10.0, 1, "filled")];
    assert orders[..0] == [];
    assert Trunc(5.0) == 5;
  }

  /** Half a share bought at 100 costs nothing in the cash flow, since the
      share count is truncated, but counts in full as a long position. */
  lemma FractionalShareExample(quote: string -> real)
    ensures Settled(Stock("ABC", [Order("buy", "ABC", 0.5, 100.0, 1, "filled")], 0.0, 0.0), quote).netPl
         == 0.5 * quote("ABC")
  {
    var orders := [Order("buy", "ABC", 0.5, 100.0, 1, "filled")];
    assert orders[..0] == [];
    assert Trunc(0.5) == 0;
  }
}
