/** The instrument-URL to symbol table of TW_robinhood_scripts.py
    (`get_symbol_from_instrument_url`): a lookup answers from the table when
    it can, and otherwise asks the instrument endpoint and stores the answer.
    `lookup` stands for that request: `None` is a request that raises, which
    leaves the table as it was and ends the caller. */
module Instruments {
  import opened Wrappers

  datatype Resolution = Resolution(symbol: Option<string>, cache: map<string, string>)

  /** One call of `get_symbol_from_instrument_url` on the table `cache`. */
  function Resolve(cache: map<string, string>, url: string, lookup: string -> Option<string>): (r: Resolution)
    // a hit answers from the table and leaves it unchanged
    ensures url in cache ==> r == Resolution(Some(cache[url]), cache)
    // a miss answers whatever the endpoint answers
    ensures url !in cache ==> r.symbol == lookup(url)
    // an answer is always what the table now holds for the URL
    ensures r.symbol.Some? ==> url in r.cache && r.cache[url] == r.symbol.value
    // no entry is ever changed or dropped, and only the URL asked for is added
    ensures forall u :: u in cache ==> u in r.cache && r.cache[u] == cache[u]
    ensures r.cache.Keys <= cache.Keys + {url}
    // a failed request adds nothing
    ensures r.symbol.None? ==> r.cache == cache
  {
    if url in cache then Resolution(Some(cache[url]), cache)
    else
      match lookup(url)
      case Some(symbol) => Resolution(Some(symbol), cache[url := symbol])
      case None => Resolution(None, cache)
  }

  /** Asking twice is asking once: once a URL has been resolved, asking
      again is a hit that returns the same symbol and changes nothing, so
      the endpoint is asked at most once per URL. */
  lemma ResolveIdempotent(cache: map<string, string>, url: string, lookup: string -> Option<string>)
    requires Resolve(cache, url, lookup).symbol.Some?
    ensures url in Resolve(cache, url, lookup).cache
    ensures Resolve(Resolve(cache, url, lookup).cache, url, lookup) == Resolve(cache, url, lookup)
  {
  }

  /** The table as a mutable object: the DataFrame that the function
      updates in place and hands back to its caller. */
  class SymbolCache {
    var symbols: map<string, string>

    /** The table as loaded from the pickle. */
    constructor (snapshot: map<string, string>)
      ensures symbols == snapshot
    {
      symbols := snapshot;
    }

    method SymbolFor(url: string, lookup: string -> Option<string>) returns (symbol: Option<string>)
      modifies this
      ensures symbol == Resolve(old(symbols), url, lookup).symbol
      ensures symbols == Resolve(old(symbols), url, lookup).cache
    {
      if url in symbols {
        symbol := Some(symbols[url]);
      } else {
        symbol := lookup(url);
        if symbol.Some? {
          symbols := symbols[url := symbol.value];
        }
      }
    }
  }

  /** The table only grows and never changes an entry. */
  predicate Extends(later: map<string, string>, earlier: map<string, string>)
  {
    forall u :: u in earlier ==> u in later && later[u] == earlier[u]
  }

  /** The instrument URL of every record, in order. */
  function UrlsOf<T>(xs: seq<T>, url: T -> string): (urls: seq<string>)
    ensures |urls| == |xs| && forall i :: 0 <= i < |xs| ==> urls[i] == url(xs[i])
  {
    seq(|xs|, i requires 0 <= i < |xs| => url(xs[i]))
  }

  /** Resolving a sequence of URLs one after the other, threading the
      table through, and stopping at the first failed request. */
  function ResolveAll(cache: map<string, string>, urls: seq<string>, lookup: string -> Option<string>): Option<(seq<string>, map<string, string>)>
  {
    if urls == [] then Some(([], cache))
    else
      var n := |urls| - 1;
      match ResolveAll(cache, urls[..n], lookup)
      case None => None
      case Some((symbols, cache')) =>
        var step := Resolve(cache', urls[n], lookup);
        if step.symbol.None? then None
        else Some((symbols + [step.symbol.value], step.cache))
  }

  /** A successful `ResolveAll` answers one symbol per URL, each the one
      the final table holds for that URL, and changes no earlier entry. */
  lemma {:induction false} ResolveAllSymbols(cache: map<string, string>, urls: seq<string>, lookup: string -> Option<string>,
                                            symbols: seq<string>, table: map<string, string>)
    requires ResolveAll(cache, urls, lookup) == Some((symbols, table))
    ensures |symbols| == |urls| && Extends(table, cache)
    ensures forall i :: 0 <= i < |urls| ==> urls[i] in table && table[urls[i]] == symbols[i]
  {
    if urls != [] {
      var n := |urls| - 1;
      var prev := ResolveAll(cache, urls[..n], lookup);
      var step := Resolve(prev.value.1, urls[n], lookup);
      assert symbols == prev.value.0 + [step.symbol.value] && table == step.cache;
      ResolveAllSymbols(cache, urls[..n], lookup, prev.value.0, prev.value.1);
      forall i | 0 <= i < |urls|
        ensures urls[i] in table && table[urls[i]] == symbols[i]
      {
        if i < n {
          assert urls[i] == urls[..n][i];
        }
      }
    }
  }

  /** `ResolveAll` fails exactly when some URL is neither in the table nor
      known to the endpoint. */
  lemma {:induction false} ResolveAllFails(cache: map<string, string>, urls: seq<string>, lookup: string -> Option<string>)
    ensures ResolveAll(cache, urls, lookup).None?
        <==> exists i :: 0 <= i < |urls| && urls[i] !in cache && lookup(urls[i]).None?
  {
    if urls != [] {
      var n := |urls| - 1;
      ResolveAllFails(cache, urls[..n], lookup);
      if ResolveAll(cache, urls[..n], lookup).None? {
        var i :| 0 <= i < n && urls[..n][i] !in cache && lookup(urls[..n][i]).None?;
        assert urls[i] == urls[..n][i];
      } else {
        var cache' := ResolveAll(cache, urls[..n], lookup).value.1;
        ResolveAllKeys(cache, urls[..n], lookup);
        if urls[n] in cache' && urls[n] !in cache {
          var i :| 0 <= i < n && urls[i] == urls[n];
          assert urls[..n][i] == urls[i];
        }
      }
    }
  }

  /** After a successful `ResolveAll` the table holds the old entries and
      the URLs asked for, nothing else. */
  lemma {:induction false} ResolveAllKeys(cache: map<string, string>, urls: seq<string>, lookup: string -> Option<string>)
    requires ResolveAll(cache, urls, lookup).Some?
    ensures forall u :: u in ResolveAll(cache, urls, lookup).value.1 <==> u in cache || u in urls
  {
    if urls != [] {
      var n := |urls| - 1;
      var prev := ResolveAll(cache, urls[..n], lookup);
      var step := Resolve(prev.value.1, urls[n], lookup);
      assert ResolveAll(cache, urls, lookup) == Some((prev.value.0 + [step.symbol.value], step.cache));
      ResolveAllKeys(cache, urls[..n], lookup);
      assert urls[..n] + [urls[n]] == urls;
      forall u
        ensures u in step.cache <==> u in cache || u in urls
      {
        assert u in urls <==> u in urls[..n] || u == urls[n];
      }
    }
  }

  /** Every entry a successful `ResolveAll` adds to the table is the
      endpoint's answer for that URL. */
  lemma {:induction false} ResolveAllAnswers(cache: map<string, string>, urls: seq<string>, lookup: string -> Option<string>)
    requires ResolveAll(cache, urls, lookup).Some?
    ensures forall u :: u in ResolveAll(cache, urls, lookup).value.1 && u !in cache ==>
      lookup(u) == Some(ResolveAll(cache, urls, lookup).value.1[u])
  {
    if urls != [] {
      var n := |urls| - 1;
      var prev := ResolveAll(cache, urls[..n], lookup);
      var step := Resolve(prev.value.1, urls[n], lookup);
      assert ResolveAll(cache, urls, lookup) == Some((prev.value.0 + [step.symbol.value], step.cache));
      ResolveAllAnswers(cache, urls[..n], lookup);
      forall u | u in step.cache && u !in cache
        ensures lookup(u) == Some(step.cache[u])
      {
        if u in prev.value.1 {
          assert step.cache[u] == prev.value.1[u];
        }
      }
    }
  }

  /** One more URL: `ResolveAll` on a prefix one longer is the previous
      outcome followed by one `Resolve` on the table it left. */
  lemma ResolveAllStep(cache: map<string, string>, urls: seq<string>, i: nat, lookup: string -> Option<string>)
    requires i < |urls| && ResolveAll(cache, urls[..i], lookup).Some?
    ensures var (symbols, table) := ResolveAll(cache, urls[..i], lookup).value;
      var step := Resolve(table, urls[i], lookup);
      ResolveAll(cache, urls[..i + 1], lookup) == if step.symbol.None? then None else Some((symbols + [step.symbol.value], step.cache))
  {
    assert urls[..i + 1][..i] == urls[..i];
  }

  /** Once a prefix of the URLs fails, so does the whole sequence. */
  lemma {:induction false} ResolveAllStops(cache: map<string, string>, urls: seq<string>, i: nat, lookup: string -> Option<string>)
    requires i < |urls| && ResolveAll(cache, urls[..i + 1], lookup).None?
    ensures ResolveAll(cache, urls, lookup).None?
    decreases |urls| - i
  {
    if i + 1 < |urls| {
      assert urls[..i + 2][..i + 1] == urls[..i + 1];
      ResolveAllStops(cache, urls, i + 1, lookup);
    } else {
      assert urls[..i + 1] == urls;
    }
  }
}
