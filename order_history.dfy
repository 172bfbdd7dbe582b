/** The order-history helpers of TW_robinhood_scripts.py: fetching every
    page of the order history, turning each raw order into a record with
    its symbol, marking pending orders, selecting them with their cost, and
    asking whether a ticker has a pending order. */
module OrderHistory {
  import opened Wrappers
  import opened Instruments
  import opened Orders
  import opened Stocks

  /** A raw order as the account reports it. A price or quantity that is
      not a number is `None`. */
  datatype RawOrder = RawOrder(
    side: string, averagePrice: Option<real>, price: Option<real>, quantity: Option<real>,
    cumulativeQuantity: real, instrument: string, id: string, lastTransactionAt: int,
    state: string, orderType: string)

  /** The record `order_item_info` builds. */
  datatype OrderInfo = OrderInfo(
    side: string, avgPrice: Option<real>, orderPrice: Option<real>, orderQuantity: Option<real>,
    shares: real, symbol: string, id: string, date: int, state: string, orderType: string)

  /** One row of the order-history table: the record, with `ticker` equal
      to its symbol, and the `is_pending` column. */
  datatype HistoryRow = HistoryRow(info: OrderInfo, isPending: bool)

  /** One page of the paginated order history: its orders and the link to
      the next page, where `None` and the empty string mean there is none. */
  datatype Page<R> = Page(results: seq<R>, next: Option<string>)

  predicate HasNext<R>(p: Page<R>)
  {
    p.next.Some? && p.next.value != ""
  }

  /** The results of the pages one after the other. */
  function Flatten<R>(pages: seq<Page<R>>): seq<R>
  {
    if pages == [] then [] else Flatten(pages[..|pages| - 1]) + pages[|pages| - 1].results
  }

  /** `k` is the first page without a next link. */
  predicate IsLastPage<R>(pages: seq<Page<R>>, k: nat)
  {
    k < |pages| && !HasNext(pages[k]) && forall j :: 0 <= j < k ==> HasNext(pages[j])
  }

  /** The pages that `get_all_history_orders` reads when the i-th request
      answers `pages[i]`: all results up to and including the first page
      without a next link, or a failed request when the pages run out
      before such a page. */
  function AllHistory<R>(pages: seq<Page<R>>): Option<seq<R>>
  {
    if pages == [] then None
    else if !HasNext(pages[0]) then Some(pages[0].results)
    else
      match AllHistory(pages[1..])
      case None => None
      case Some(rest) => Some(pages[0].results + rest)
  }

  lemma {:induction false} FlattenCons<R>(pages: seq<Page<R>>)
    requires pages != []
    ensures Flatten(pages) == pages[0].results + Flatten(pages[1..])
  {
    var n := |pages| - 1;
    if n > 0 {
      FlattenCons(pages[..n]);
      assert pages[..n][1..] == pages[1..][..n - 1];
    } else {
      assert pages[..n] == [];
    }
  }

  /** The history is the results of every page up to the first one without
      a next link, in page order; there is none when every page has a next
      link. */
  lemma {:induction false} AllHistoryPages<R>(pages: seq<Page<R>>)
    ensures forall k: nat :: IsLastPage(pages, k) ==> AllHistory(pages) == Some(Flatten(pages[..k + 1]))
    ensures (forall j :: 0 <= j < |pages| ==> HasNext(pages[j])) <==> AllHistory(pages).None?
  {
    if pages != [] {
      AllHistoryPages(pages[1..]);
      forall k: nat | IsLastPage(pages, k) ensures AllHistory(pages) == Some(Flatten(pages[..k + 1])) {
        FlattenCons(pages[..k + 1]);
        assert pages[..k + 1][1..] == pages[1..][..k];
        if k > 0 {
          assert IsLastPage(pages[1..], k - 1);
          assert AllHistory(pages[1..]) == Some(Flatten(pages[1..][..k]));
          assert AllHistory(pages) == Some(pages[0].results + Flatten(pages[1..][..k]));
        } else {
          assert pages[..1][1..] == [];
          assert Flatten(pages[..1]) == pages[0].results;
        }
      }
      if AllHistory(pages).None? {
        assert HasNext(pages[0]);
        assert forall j :: 1 <= j < |pages| ==> pages[1..][j - 1] == pages[j];
      }
      if forall j :: 0 <= j < |pages| ==> HasNext(pages[j]) {
        assert forall j :: 0 <= j < |pages| - 1 ==> pages[1..][j] == pages[j + 1];
      }
    }
  }

  /** `get_all_history_orders`: the first page, then every next page while
      the last one read has a next link. `pages[i]` is the answer to the
      i-th request, and running out of pages is a failed request. */
  method GetAllHistoryOrders<R>(pages: seq<Page<R>>) returns (orders: Option<seq<R>>)
    ensures orders == AllHistory(pages)
  {
    AllHistoryPages(pages);
    if pages == [] {
      return None;
    }
    var i := 0;
    var acc := pages[0].results;
    assert pages[..1][..0] == [];
    while HasNext(pages[i])
      invariant 0 <= i < |pages|
      invariant forall j :: 0 <= j < i ==> HasNext(pages[j])
      invariant acc == Flatten(pages[..i + 1])
      decreases |pages| - i
    {
      if i + 1 == |pages| {
        return None;
      }
      i := i + 1;
      assert pages[..i + 1][..i] == pages[..i];
      acc := acc + pages[i].results;
    }
    assert IsLastPage(pages, i);
    orders := Some(acc);
  }

  /** `mark_pending_orders`. */
  predicate MarkPendingOrders(state: string)
  {
    state == "queued" || state == "confirmed"
  }

  /** `info` is `raw` with its fields renamed and `symbol` added:
      `shares` is the filled (cumulative) quantity, `avgPrice` the average
      fill price and `date` the last transaction time. */
  predicate Renames(info: OrderInfo, raw: RawOrder, symbol: string)
  {
    && info.symbol == symbol
    && info.shares == raw.cumulativeQuantity
    && info.avgPrice == raw.averagePrice
    && info.date == raw.lastTransactionAt
    && info.side == raw.side && info.state == raw.state
    && info.orderPrice == raw.price && info.orderQuantity == raw.quantity
    && info.id == raw.id && info.orderType == raw.orderType
  }

  /** `order_item_info`: the symbol of the order's instrument is looked up
      through the shared table, and the fields are renamed. It fails when
      the lookup fails. */
  method OrderItemInfo(raw: RawOrder, cache: SymbolCache, lookup: string -> Option<string>) returns (info: Option<OrderInfo>)
    modifies cache
    ensures cache.symbols == Resolve(old(cache.symbols), raw.instrument, lookup).cache
    ensures info.None? <==> Resolve(old(cache.symbols), raw.instrument, lookup).symbol.None?
    ensures info.Some? ==> raw.instrument in cache.symbols && Renames(info.value, raw, cache.symbols[raw.instrument])
  {
    var symbol := cache.SymbolFor(raw.instrument, lookup);
    if symbol.None? {
      return None;
    }
    info := Some(OrderInfo(raw.side, raw.averagePrice, raw.price, raw.quantity, raw.cumulativeQuantity,
                           symbol.value, raw.id, raw.lastTransactionAt, raw.state, raw.orderType));
  }

  function OrderInstrument(o: RawOrder): string
  {
    o.instrument
  }

  /** The list comprehension of `get_order_history`: `order_item_info` on
      every raw order in turn, threading the shared table through. */
  method InfoRows(raws: seq<RawOrder>, cache: SymbolCache, lookup: string -> Option<string>)
    returns (rows: Option<seq<HistoryRow>>)
    modifies cache
    ensures Extends(cache.symbols, old(cache.symbols))
    ensures rows.Some? <==> ResolveAll(old(cache.symbols), UrlsOf(raws, OrderInstrument), lookup).Some?
    ensures rows.Some? ==> cache.symbols == ResolveAll(old(cache.symbols), UrlsOf(raws, OrderInstrument), lookup).value.1
    ensures rows.Some? ==> |rows.value| == |raws| && forall i :: 0 <= i < |raws| ==>
      && raws[i].instrument in cache.symbols
      && Renames(rows.value[i].info, raws[i], cache.symbols[raws[i].instrument])
      && rows.value[i].isPending == MarkPendingOrders(raws[i].state)
  {
    ghost var urls := UrlsOf(raws, OrderInstrument);
    ghost var symbols: seq<string> := [];
    var acc: seq<HistoryRow> := [];
    for i := 0 to |raws|
      invariant ResolveAll(old(cache.symbols), urls[..i], lookup) == Some((symbols, cache.symbols))
      invariant |acc| == i && |symbols| == i
      invariant forall j :: 0 <= j < i ==>
        Renames(acc[j].info, raws[j], symbols[j]) && acc[j].isPending == MarkPendingOrders(raws[j].state)
    {
      ResolveAllStep(old(cache.symbols), urls, i, lookup);
      var info := OrderItemInfo(raws[i], cache, lookup);
      if info.None? {
        ResolveAllStops(old(cache.symbols), urls, i, lookup);
        ResolveAllSymbols(old(cache.symbols), urls[..i], lookup, symbols, cache.symbols);
        return None;
      }
      symbols := symbols + [info.value.symbol];
      acc := acc + [HistoryRow(info.value, MarkPendingOrders(info.value.state))];
    }
    assert urls[..|raws|] == urls;
    ResolveAllSymbols(old(cache.symbols), urls, lookup, symbols, cache.symbols);
    forall i | 0 <= i < |raws|
      ensures raws[i].instrument in cache.symbols && Renames(acc[i].info, raws[i], cache.symbols[raws[i].instrument])
    {
      assert urls[i] == raws[i].instrument;
    }
    rows := Some(acc);
  }

  /** `get_order_history`: every order of every page becomes a row, with
      its symbol resolved through the shared table and `is_pending` set by
      `mark_pending_orders`. It fails when a page request or a symbol
      lookup fails, and when the history is empty (a table built from no
      records has no `symbol` column to copy into `ticker`). Because the table never changes an entry, each row's
      symbol is what the table finally holds for its instrument. */
  method GetOrderHistory(pages: seq<Page<RawOrder>>, cache: SymbolCache, lookup: string -> Option<string>)
    returns (rows: Option<seq<HistoryRow>>)
    modifies cache
    ensures Extends(cache.symbols, old(cache.symbols))
    ensures rows.Some? <==> (AllHistory(pages).Some? && AllHistory(pages).value != []
      && ResolveAll(old(cache.symbols), UrlsOf(AllHistory(pages).value, OrderInstrument), lookup).Some?)
    ensures rows.Some? ==>
      cache.symbols == ResolveAll(old(cache.symbols), UrlsOf(AllHistory(pages).value, OrderInstrument), lookup).value.1
    ensures rows.Some? ==> var raws := AllHistory(pages).value;
      && |rows.value| == |raws|
      && forall i :: 0 <= i < |raws| ==>
        && raws[i].instrument in cache.symbols
        && Renames(rows.value[i].info, raws[i], cache.symbols[raws[i].instrument])
        && rows.value[i].isPending == MarkPendingOrders(raws[i].state)
  {
    var past := GetAllHistoryOrders(pages);
    if past.None? {
      return None;
    }
    rows := InfoRows(past.value, cache, lookup);
    if past.value == [] {
      rows := None;
    }
  }

  /** The product of two numeric cells; not a number when either is not. */
  function Product(a: Option<real>, b: Option<real>): Option<real>
  {
    if a.Some? && b.Some? then Some(a.value * b.value) else None
  }

  /** A pending row with its `cost_of_allocation`. */
  datatype PendingRow = PendingRow(row: HistoryRow, cost: Option<real>)

  function RowsOf(ps: seq<PendingRow>): (hs: seq<HistoryRow>)
    ensures |hs| == |ps| && forall i :: 0 <= i < |ps| ==> hs[i] == ps[i].row
  {
    seq(|ps|, i requires 0 <= i < |ps| => ps[i].row)
  }

  /** `pending_orders`: the rows whose `is_pending` is set, in order, each
      with the order price times the order quantity as its cost. */
  function PendingOrders(rows: seq<HistoryRow>): (ps: seq<PendingRow>)
    ensures forall h :: h in RowsOf(ps) <==> h in rows && h.isPending
    ensures forall i :: 0 <= i < |ps| ==> ps[i].cost == Product(ps[i].row.info.orderPrice, ps[i].row.info.orderQuantity)
    ensures |ps| <= |rows|
  {
    if rows == [] then []
    else
      var n := |rows| - 1;
      var h := rows[n];
      var ps := PendingOrders(rows[..n]) + (if h.isPending then [PendingRow(h, Product(h.info.orderPrice, h.info.orderQuantity))] else []);
      assert rows == rows[..n] + [h];
      assert RowsOf(ps) == RowsOf(PendingOrders(rows[..n])) + (if h.isPending then [h] else []);
      ps
  }

  /** `check_if_order_pending`. */
  function CheckIfOrderPending(ticker: string, pending: seq<PendingRow>): (answer: string)
    ensures answer == "pending" || answer == "not pending"
    ensures answer == "pending" <==> exists i :: 0 <= i < |pending| && pending[i].row.info.symbol == ticker
  {
    if exists i :: 0 <= i < |pending| && pending[i].row.info.symbol == ticker then "pending" else "not pending"
  }

  /** A ticker is reported pending exactly when one of its orders in the
      history is queued or confirmed. */
  lemma TickerPending(ticker: string, rows: seq<HistoryRow>)
    requires forall i :: 0 <= i < |rows| ==> rows[i].isPending == MarkPendingOrders(rows[i].info.state)
    ensures CheckIfOrderPending(ticker, PendingOrders(rows)) == "pending"
        <==> exists i :: 0 <= i < |rows| && rows[i].info.symbol == ticker && MarkPendingOrders(rows[i].info.state)
  {
    PendingSymbols(ticker, rows);
  }

  /** Some pending row has the ticker exactly when some marked row does. */
  lemma PendingSymbols(ticker: string, rows: seq<HistoryRow>)
    ensures (exists k :: 0 <= k < |PendingOrders(rows)| && PendingOrders(rows)[k].row.info.symbol == ticker)
        <==> exists i :: 0 <= i < |rows| && rows[i].info.symbol == ticker && rows[i].isPending
  {
    var ps := PendingOrders(rows);
    if exists k :: 0 <= k < |ps| && ps[k].row.info.symbol == ticker {
      var k :| 0 <= k < |ps| && ps[k].row.info.symbol == ticker;
      var i := SourceRow(rows, k);
    }
    if exists i :: 0 <= i < |rows| && rows[i].info.symbol == ticker && rows[i].isPending {
      var i :| 0 <= i < |rows| && rows[i].info.symbol == ticker && rows[i].isPending;
      var k := PendingRowFor(rows, i);
    }
  }

  /** Every pending row comes from a marked row of the history ... */
  lemma SourceRow(rows: seq<HistoryRow>, k: nat) returns (i: nat)
    requires k < |PendingOrders(rows)|
    ensures i < |rows| && rows[i] == PendingOrders(rows)[k].row && rows[i].isPending
  {
    var hs := RowsOf(PendingOrders(rows));
    assert hs[k] in hs;
    i :| 0 <= i < |rows| && rows[i] == hs[k];
  }

  /** ... and every marked row of the history has a pending row. */
  lemma PendingRowFor(rows: seq<HistoryRow>, i: nat) returns (k: nat)
    requires i < |rows| && rows[i].isPending
    ensures k < |PendingOrders(rows)| && PendingOrders(rows)[k].row == rows[i]
  {
    var hs := RowsOf(PendingOrders(rows));
    assert rows[i] in hs;
    k :| 0 <= k < |hs| && hs[k] == rows[i];
  }

  /** The line of orders.csv a history row becomes: side, symbol, shares,
      average price, date and state. */
  function CsvRow(h: HistoryRow): Row
  {
    Row(h.info.side, h.info.symbol, h.info.shares, h.info.avgPrice, h.info.date, h.info.state)
  }

  /** A history row with an average price and a real symbol becomes one
      order for that symbol, whose shares are the filled quantity and whose
      price is the average fill price; a row without an average price is
      not counted at all. */
  lemma HistoryRowToOrder(h: HistoryRow)
    ensures h.info.avgPrice.None? ==> KeptOrders([CsvRow(h)]) == []
    ensures h.info.avgPrice.Some? && h.info.symbol != "symbol" ==>
      KeptOrders([CsvRow(h)]) == [Order(h.info.side, h.info.symbol, h.info.shares, h.info.avgPrice.value, h.info.date, h.info.state)]
  {
    assert [CsvRow(h)][..0] == [];
  }
}
