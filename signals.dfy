/** The watch-list signals of TW_robinhood_scripts.py (`check_entry_sl_tp`):
    for each row, whether the last trade, ask or bid price has crossed the
    entry price, the stop loss or the take profit, with the stop-loss and
    take-profit directions reversed for a SHORT trade, and a "No ... price"
    message in place of a comparison when a price is below 0.1.

    A cell that is not a number is `None`; every comparison with it is
    false, as it is for NaN. */
module Signals {
  import opened Wrappers

  /** A watch-list row: the trade's levels and the latest quotes. */
  datatype WatchRow = WatchRow(
    typeOfTrade: string, entryPrice: Option<real>, stopLoss: Option<real>, takeProfit: Option<real>,
    recentAskPrice: Option<real>, recentBidPrice: Option<real>, recentLastTradePrice: Option<real>)

  /** The value of one predicate column: a comparison, or a message. */
  datatype Check = Flag(value: bool) | NoPrice(message: string)

  /** The price floor under which a quote counts as missing. */
  const MinPrice: real := 0.1

  predicate Less(a: Option<real>, b: real)
  {
    a.Some? && a.value < b
  }

  /** `a <= b` on cells; false when either is not a number. */
  predicate AtMost(a: Option<real>, b: Option<real>)
  {
    a.Some? && b.Some? && a.value <= b.value
  }

  predicate IsShort(row: WatchRow)
  {
    row.typeOfTrade == "SHORT"
  }

  /** A quote is usable when it is a number of at least 0.1. */
  predicate Usable(quote: Option<real>)
  {
    quote.Some? && quote.value >= MinPrice
  }

  /** The level has been crossed by a usable quote, in the trade's losing
      direction for a stop loss ... */
  predicate StopCrossed(row: WatchRow, quote: Option<real>)
  {
    Usable(quote) && row.stopLoss.Some? &&
    (if IsShort(row) then quote.value >= row.stopLoss.value else quote.value <= row.stopLoss.value)
  }

  /** ... in its winning direction for a take profit ... */
  predicate TargetCrossed(row: WatchRow, quote: Option<real>)
  {
    Usable(quote) && row.takeProfit.Some? &&
    (if IsShort(row) then quote.value <= row.takeProfit.value else quote.value >= row.takeProfit.value)
  }

  /** ... and down to the entry price for an entry. */
  predicate EntryReached(row: WatchRow, quote: Option<real>)
  {
    Usable(quote) && row.entryPrice.Some? && quote.value <= row.entryPrice.value
  }

  /** What a predicate column holds: the message `missing` when the quote
      is a number below 0.1, and otherwise whether the level was crossed. */
  function Column(quote: Option<real>, missing: string, crossed: bool): Check
  {
    if Less(quote, MinPrice) then NoPrice(missing) else Flag(crossed)
  }

  /** `last_trade_price_below_entry` and `ask_price_below_entry`: the entry
      price is at or above the quote. */
  function EntryCheck(row: WatchRow, quote: Option<real>, missing: string): (c: Check)
    ensures c == Column(quote, missing, EntryReached(row, quote))
  {
    if Less(quote, MinPrice) then NoPrice(missing) else Flag(AtMost(quote, row.entryPrice))
  }

  /** `last_trade_price_below_stop_loss` and `bid_price_below_stop_loss`:
      the quote is at or below the stop loss, or at or above it for a SHORT
      trade. */
  function StopLossCheck(row: WatchRow, quote: Option<real>, missing: string): (c: Check)
    ensures c == Column(quote, missing, StopCrossed(row, quote))
  {
    if Less(quote, MinPrice) then NoPrice(missing)
    else if IsShort(row) then Flag(AtMost(row.stopLoss, quote))
    else Flag(AtMost(quote, row.stopLoss))
  }

  /** `last_trade_price_above_take_profit` and
      `bid_price_above_above_take_profit`: the quote is at or above the take
      profit, or at or below it for a SHORT trade. */
  function TakeProfitCheck(row: WatchRow, quote: Option<real>, missing: string): (c: Check)
    ensures c == Column(quote, missing, TargetCrossed(row, quote))
  {
    if Less(quote, MinPrice) then NoPrice(missing)
    else if IsShort(row) then Flag(AtMost(quote, row.takeProfit))
    else Flag(AtMost(row.takeProfit, quote))
  }

  /** The nine columns `check_entry_sl_tp` adds to a row. */
  datatype Signal = Signal(
    lastTradePriceBelowEntry: Check, askPriceBelowEntry: Check,
    lastTradePriceBelowStopLoss: Check, bidPriceBelowStopLoss: Check,
    lastTradePriceAboveTakeProfit: Check, bidPriceAboveTakeProfit: Check,
    stopLossHit: bool, entryPriceHit: bool, takeProfitHit: bool)

  /** A column counts towards a hit only when it is exactly `True`. */
  predicate IsTrue(c: Check)
  {
    c == Flag(true)
  }

  /** The nine columns of one row: the six predicates on the quotes they
      name, then the three hits, each true when one of its two columns is
      exactly `True`. */
  function SignalOf(row: WatchRow): Signal
  {
    var lastEntry := EntryCheck(row, row.recentLastTradePrice, "No last trade price");
    var askEntry := EntryCheck(row, row.recentAskPrice, "No ask price");
    var lastStop := StopLossCheck(row, row.recentLastTradePrice, "No last trade price");
    var bidStop := StopLossCheck(row, row.recentBidPrice, "No bid price");
    var lastTake := TakeProfitCheck(row, row.recentLastTradePrice, "No last trade price");
    var bidTake := TakeProfitCheck(row, row.recentBidPrice, "No bid price");
    Signal(lastEntry, askEntry, lastStop, bidStop, lastTake, bidTake,
           IsTrue(lastStop) || IsTrue(bidStop),
           IsTrue(lastEntry) || IsTrue(askEntry),
           IsTrue(lastTake) || IsTrue(bidTake))
  }

  /** `check_entry_sl_tp` over the table. For each row, every predicate
      column holds its "No ... price" message exactly when its quote is a
      number below 0.1, and otherwise `True` exactly when that quote is
      usable and has crossed the column's level. Each hit column is true
      exactly when one of its two quotes is usable and has crossed the level. */
  function CheckEntrySlTp(rows: seq<WatchRow>): (signals: seq<Signal>)
    ensures |signals| == |rows|
    ensures forall i :: 0 <= i < |rows| ==>
      && signals[i].lastTradePriceBelowEntry
         == Column(rows[i].recentLastTradePrice, "No last trade price", EntryReached(rows[i], rows[i].recentLastTradePrice))
      && signals[i].askPriceBelowEntry
         == Column(rows[i].recentAskPrice, "No ask price", EntryReached(rows[i], rows[i].recentAskPrice))
      && signals[i].lastTradePriceBelowStopLoss
         == Column(rows[i].recentLastTradePrice, "No last trade price", StopCrossed(rows[i], rows[i].recentLastTradePrice))
      && signals[i].bidPriceBelowStopLoss
         == Column(rows[i].recentBidPrice, "No bid price", StopCrossed(rows[i], rows[i].recentBidPrice))
      && signals[i].lastTradePriceAboveTakeProfit
         == Column(rows[i].recentLastTradePrice, "No last trade price", TargetCrossed(rows[i], rows[i].recentLastTradePrice))
      && signals[i].bidPriceAboveTakeProfit
         == Column(rows[i].recentBidPrice, "No bid price", TargetCrossed(rows[i], rows[i].recentBidPrice))
    ensures forall i :: 0 <= i < |rows| ==>
      && (signals[i].stopLossHit <==>
            StopCrossed(rows[i], rows[i].recentLastTradePrice) || StopCrossed(rows[i], rows[i].recentBidPrice))
      && (signals[i].takeProfitHit <==>
            TargetCrossed(rows[i], rows[i].recentLastTradePrice) || TargetCrossed(rows[i], rows[i].recentBidPrice))
      && (signals[i].entryPriceHit <==>
            EntryReached(rows[i], rows[i].recentLastTradePrice) || EntryReached(rows[i], rows[i].recentAskPrice))
  {
    seq(|rows|, i requires 0 <= i < |rows| => SignalOf(rows[i]))
  }

  /** A SHORT trade reverses the stop-loss and take-profit answers of the
      same row traded long, whenever the quote is usable and differs from
      the level. */
  lemma ShortMirrorsLong(row: WatchRow, quote: Option<real>, missing: string)
    requires Usable(quote) && row.stopLoss.Some? && row.takeProfit.Some?
    requires quote.value != row.stopLoss.value && quote.value != row.takeProfit.value
    ensures StopLossCheck(row.(typeOfTrade := "SHORT"), quote, missing)
         == Flag(!StopLossCheck(row.(typeOfTrade := "LONG"), quote, missing).value)
    ensures TakeProfitCheck(row.(typeOfTrade := "SHORT"), quote, missing)
         == Flag(!TakeProfitCheck(row.(typeOfTrade := "LONG"), quote, missing).value)
  {
  }

  /** With neither quote usable nothing is ever a hit, whatever the
      levels: a message is never taken for `True`. */
  lemma NoQuotesNoHits(row: WatchRow)
    requires !Usable(row.recentLastTradePrice) && !Usable(row.recentBidPrice) && !Usable(row.recentAskPrice)
    ensures !SignalOf(row).stopLossHit && !SignalOf(row).takeProfitHit && !SignalOf(row).entryPriceHit
  {
  }
}
