/** The dividends part of get_profit_and_loss.py: every dividend record is
    tagged with the ticker of its instrument, the records are cut to the
    date window by record date, summed per ticker, and the per-ticker sums
    are added up into the dividends paid. */
module Dividends {
  import opened Wrappers
  import opened Sums
  import opened Grouping
  import opened Window
  import opened Instruments

  /** A dividend record as the account reports it. */
  datatype Dividend = Dividend(id: string, instrument: string, amount: real, recordDate: int)

  /** A dividend record with its ticker resolved. */
  datatype Payout = Payout(ticker: string, amount: real, recordDate: int)

  /** One row of the per-ticker sums. */
  datatype TickerTotal = TickerTotal(ticker: string, amount: real)

  function DividendInstrument(d: Dividend): string
  {
    d.instrument
  }

  function PayoutTicker(p: Payout): string
  {
    p.ticker
  }

  function Amount(p: Payout): real
  {
    p.amount
  }

  function RecordDate(p: Payout): int
  {
    p.recordDate
  }

  /** The loop that fills the ticker column, resolving each instrument
      through the shared table. It fails when a lookup fails; otherwise the
      i-th payout carries the i-th record's amount and record date and the
      symbol now stored for its instrument. */
  method TagTickers(ds: seq<Dividend>, cache: SymbolCache, lookup: string -> Option<string>) returns (r: Option<seq<Payout>>)
    modifies cache
    ensures Extends(cache.symbols, old(cache.symbols))
    ensures r.None? <==> ResolveAll(old(cache.symbols), UrlsOf(ds, DividendInstrument), lookup).None?
    ensures r.Some? ==> cache.symbols == ResolveAll(old(cache.symbols), UrlsOf(ds, DividendInstrument), lookup).value.1
    ensures r.Some? ==> |r.value| == |ds| && forall i :: 0 <= i < |ds| ==>
      && ds[i].instrument in cache.symbols
      && r.value[i] == Payout(cache.symbols[ds[i].instrument], ds[i].amount, ds[i].recordDate)
  {
    ghost var urls := UrlsOf(ds, DividendInstrument);
    ghost var symbols: seq<string> := [];
    var payouts: seq<Payout> := [];
    for i := 0 to |ds|
      invariant ResolveAll(old(cache.symbols), urls[..i], lookup) == Some((symbols, cache.symbols))
      invariant |payouts| == i && |symbols| == i
      invariant forall j :: 0 <= j < i ==> payouts[j] == Payout(symbols[j], ds[j].amount, ds[j].recordDate)
    {
      ResolveAllStep(old(cache.symbols), urls, i, lookup);
      var symbol := cache.SymbolFor(ds[i].instrument, lookup);
      if symbol.None? {
        ResolveAllStops(old(cache.symbols), urls, i, lookup);
        ResolveAllSymbols(old(cache.symbols), urls[..i], lookup, symbols, cache.symbols);
        return None;
      }
      symbols := symbols + [symbol.value];
      payouts := payouts + [Payout(symbol.value, ds[i].amount, ds[i].recordDate)];
    }
    assert urls[..|ds|] == urls;
    ResolveAllSymbols(old(cache.symbols), urls, lookup, symbols, cache.symbols);
    r := Some(payouts);
  }

  function DividendAmount(d: Dividend): real
  {
    d.amount
  }

  function DividendDate(d: Dividend): int
  {
    d.recordDate
  }

  /** Tagging records with tickers changes neither the amounts nor the
      record dates, so the amounts in the window add up the same. */
  lemma {:induction false} TaggingKeepsAmounts(ds: seq<Dividend>, ps: seq<Payout>, start: int, end: int)
    requires |ps| == |ds|
    requires forall i :: 0 <= i < |ds| ==> ps[i].amount == ds[i].amount && ps[i].recordDate == ds[i].recordDate
    ensures SumOf(Within(ps, RecordDate, start, end), Amount) == SumOf(Within(ds, DividendDate, start, end), DividendAmount)
  {
    if ds != [] {
      var n := |ds| - 1;
      var ds', ps' := ds[..n], ps[..n];
      assert forall i :: 0 <= i < n ==> ps'[i] == ps[i] && ds'[i] == ds[i];
      TaggingKeepsAmounts(ds', ps', start, end);
      var tp := if InWindow(ps[n].recordDate, start, end) then [ps[n]] else [];
      var td := if InWindow(ds[n].recordDate, start, end) then [ds[n]] else [];
      assert Within(ps, RecordDate, start, end) == Within(ps', RecordDate, start, end) + tp;
      assert Within(ds, DividendDate, start, end) == Within(ds', DividendDate, start, end) + td;
      SumOfAppend(Within(ps', RecordDate, start, end), tp, Amount);
      SumOfAppend(Within(ds', DividendDate, start, end), td, DividendAmount);
      assert SumOf(tp, Amount) == SumOf(td, DividendAmount) by {
        if tp != [] { assert tp[..0] == [] && td[..0] == []; }
      }
    }
  }

  function TickersOf(totals: seq<TickerTotal>): seq<string>
  {
    seq(|totals|, i requires 0 <= i < |totals| => totals[i].ticker)
  }

  /** `groupby('ticker').sum()`: one row per distinct ticker holding the
      sum of that ticker's amounts. */
  function PerTicker(w: seq<Payout>): (totals: seq<TickerTotal>)
    ensures NoDuplicates(TickersOf(totals))
    ensures forall t :: t in TickersOf(totals) <==> exists i :: 0 <= i < |w| && w[i].ticker == t
    ensures forall i :: 0 <= i < |totals| ==> totals[i].amount == SumOf(Group(w, PayoutTicker, totals[i].ticker), Amount)
  {
    var ks := DistinctKeys(w, PayoutTicker);
    var totals := seq(|ks|, i requires 0 <= i < |ks| => TickerTotal(ks[i], SumOf(Group(w, PayoutTicker, ks[i]), Amount)));
    assert TickersOf(totals) == ks;
    totals
  }

  function Total(t: TickerTotal): real
  {
    t.amount
  }

  /** The per-ticker sums add up to the sum of all amounts. */
  lemma PerTickerSum(w: seq<Payout>)
    ensures SumOf(PerTicker(w), Total) == SumOf(w, Amount)
  {
    var ks := DistinctKeys(w, PayoutTicker);
    var totals := PerTicker(w);
    assert TickersOf(totals) == ks;
    assert forall i :: 0 <= i < |ks| ==> totals[i].ticker == ks[i];
    SumOfTotals(w, ks, totals);
    SumOfGroups(w, PayoutTicker, Amount);
  }

  /** Rows holding the sums of the groups of `ks` add up to the sum of
      those groups one after the other. */
  lemma {:induction false} SumOfTotals(w: seq<Payout>, ks: seq<string>, totals: seq<TickerTotal>)
    requires |totals| == |ks|
    requires forall i :: 0 <= i < |ks| ==> totals[i].amount == SumOf(Group(w, PayoutTicker, ks[i]), Amount)
    ensures SumOf(totals, Total) == SumOf(ConcatGroups(w, PayoutTicker, ks), Amount)
  {
    if ks != [] {
      var n := |ks| - 1;
      SumOfTotals(w, ks[..n], totals[..n]);
      SumOfAppend(ConcatGroups(w, PayoutTicker, ks[..n]), Group(w, PayoutTicker, ks[n]), Amount);
    }
  }

  /** The dividends paid from the dividend records: the window by record
      date, the per-ticker sums, and the sum of the per-ticker sums, which
      is the sum of every payout in the window. */
  method DividendsPaid(payouts: seq<Payout>, start: int, end: int) returns (window: seq<Payout>, totals: seq<TickerTotal>, paid: real)
    ensures SortedByDate(window, RecordDate)
    ensures multiset(window) == multiset(Within(payouts, RecordDate, start, end))
    ensures totals == PerTicker(window)
    ensures paid == SumOf(totals, Total)
    ensures paid == SumOf(Within(payouts, RecordDate, start, end), Amount)
  {
    window := FilterWindow(payouts, RecordDate, start, end);
    totals := PerTicker(window);
    paid := 0.0;
    for i := 0 to |totals|
      invariant paid == SumOf(totals[..i], Total)
    {
      assert totals[..i + 1][..i] == totals[..i];
      paid := paid + totals[i].amount;
    }
    assert totals[..|totals|] == totals;
    assert SumOf(totals, Total) == SumOf(window, Amount) by {
      PerTickerSum(window);
    }
    assert SumOf(window, Amount) == SumOf(Within(payouts, RecordDate, start, end), Amount) by {
      SumOfPermutation(window, Within(payouts, RecordDate, start, end), Amount);
    }
  }
}
