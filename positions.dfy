/** The open positions of TW_robinhood_scripts.py (`get_positions`) and
    the ownership check (`check_if_ticker_is_owned`). */
module Positions {
  import opened Wrappers
  import opened Grouping
  import opened Orders
  import opened Instruments

  /** An open position as the account reports it. */
  datatype RawPosition = RawPosition(quantity: real, instrument: string, averageBuyPrice: real, updatedAt: int)

  /** One row of the positions table. */
  datatype Asset = Asset(ticker: string, quantity: int, purchasePrice: real, datePurchased: int)

  function AssetTicker(a: Asset): string
  {
    a.ticker
  }

  /** The asset a position becomes once its instrument resolved to `ticker`. */
  function AssetOf(p: RawPosition, ticker: string): Asset
  {
    Asset(ticker, Trunc(p.quantity), p.averageBuyPrice, p.updatedAt)
  }

  /** The assets built, in input order, from the positions whose quantity
      truncates to a positive whole number; each is tagged with its
      instrument's symbol as found in `snapshot` or fetched. `None` when a
      lookup for such a position fails. */
  function KeptAssets(ps: seq<RawPosition>, snapshot: map<string, string>, lookup: string -> Option<string>): (r: Option<seq<Asset>>)
    ensures r.Some? ==> |r.value| <= |ps| && forall i :: 0 <= i < |r.value| ==> r.value[i].quantity > 0
  {
    if ps == [] then Some([])
    else
      var n := |ps| - 1;
      match KeptAssets(ps[..n], snapshot, lookup)
      case None => None
      case Some(assets) =>
        var quantity := Trunc(ps[n].quantity);
        if quantity <= 0 then Some(assets)
        else
          match Resolve(snapshot, ps[n].instrument, lookup).symbol
          case None => None
          case Some(ticker) => Some(assets + [AssetOf(ps[n], ticker)])
  }

  /** Building the assets fails exactly when some position with a positive
      whole quantity has an instrument that is neither in the snapshot nor
      known to the endpoint. */
  lemma {:induction false} KeptAssetsFails(ps: seq<RawPosition>, snapshot: map<string, string>, lookup: string -> Option<string>)
    ensures KeptAssets(ps, snapshot, lookup).None? <==>
      exists i :: 0 <= i < |ps| && Trunc(ps[i].quantity) > 0
        && ps[i].instrument !in snapshot && lookup(ps[i].instrument).None?
  {
    if ps != [] {
      var n := |ps| - 1;
      KeptAssetsFails(ps[..n], snapshot, lookup);
      if KeptAssets(ps[..n], snapshot, lookup).None? {
        var i :| 0 <= i < n && Trunc(ps[..n][i].quantity) > 0
          && ps[..n][i].instrument !in snapshot && lookup(ps[..n][i].instrument).None?;
        assert ps[i] == ps[..n][i];
      } else {
        forall i | 0 <= i < n
          ensures !(Trunc(ps[i].quantity) > 0 && ps[i].instrument !in snapshot && lookup(ps[i].instrument).None?)
        {
          assert ps[i] == ps[..n][i];
        }
      }
    }
  }

  /** The last asset with ticker `k`. */
  function LatestFor(assets: seq<Asset>, k: string): (a: Asset)
    requires k in DistinctKeys(assets, AssetTicker)
    ensures a.ticker == k && a in assets
  {
    GroupOfPresentKey(assets, AssetTicker, k);
    var g := Group(assets, AssetTicker, k);
    assert AssetTicker(g[|g| - 1]) == k;
    GroupMembers(assets, AssetTicker, k);
    g[|g| - 1]
  }

  /** The table `get_positions` returns: one row per ticker, in order of
      the ticker's first appearance, holding the latest asset for it. */
  function PositionsTable(assets: seq<Asset>): (table: seq<Asset>)
    ensures |table| == |DistinctKeys(assets, AssetTicker)|
    ensures forall i :: 0 <= i < |table| ==> table[i].ticker == DistinctKeys(assets, AssetTicker)[i] && table[i] in assets
  {
    var ks := DistinctKeys(assets, AssetTicker);
    seq(|ks|, i requires 0 <= i < |ks| => LatestFor(assets, ks[i]))
  }

  /** A later position of a ticker overwrites an earlier one: the row for a
      ticker is the last asset with that ticker. */
  lemma PositionsTableLatest(assets: seq<Asset>, i: nat, j: nat)
    requires j < |assets|
    requires forall k :: j < k < |assets| ==> assets[k].ticker != assets[j].ticker
    requires i < |PositionsTable(assets)| && PositionsTable(assets)[i].ticker == assets[j].ticker
    ensures PositionsTable(assets)[i] == assets[j]
  {
    LatestOfGroup(assets, j);
  }

  lemma {:induction false} LatestOfGroup(assets: seq<Asset>, j: nat)
    requires j < |assets|
    requires forall k :: j < k < |assets| ==> assets[k].ticker != assets[j].ticker
    ensures assets[j].ticker in DistinctKeys(assets, AssetTicker)
    ensures LatestFor(assets, assets[j].ticker) == assets[j]
  {
    var n := |assets| - 1;
    if j < n {
      assert forall k :: j < k < n ==> assets[..n][k] == assets[k];
      assert assets[..n][j] == assets[j];
      LatestOfGroup(assets[..n], j);
    }
  }

  /** The keyed table built so far matches the assets so far. */
  ghost predicate Tabulates(keys: seq<string>, table: map<string, Asset>, assets: seq<Asset>)
  {
    && keys == DistinctKeys(assets, AssetTicker)
    && (forall k :: k in table <==> k in keys)
    && forall k :: k in keys ==> table[k] == LatestFor(assets, k)
  }

  lemma LatestForAppend(assets: seq<Asset>, asset: Asset, k: string)
    requires k in DistinctKeys(assets + [asset], AssetTicker)
    ensures k != asset.ticker ==> k in DistinctKeys(assets, AssetTicker)
    ensures LatestFor(assets + [asset], k) == if k == asset.ticker then asset else LatestFor(assets, k)
  {
    AppendRow(assets, asset, AssetTicker);
  }

  lemma TabulatesAppend(keys: seq<string>, table: map<string, Asset>, assets: seq<Asset>, asset: Asset)
    requires Tabulates(keys, table, assets)
    ensures Tabulates(if asset.ticker in table then keys else keys + [asset.ticker],
                      table[asset.ticker := asset], assets + [asset])
  {
    var assets' := assets + [asset];
    var keys' := if asset.ticker in table then keys else keys + [asset.ticker];
    var table' := table[asset.ticker := asset];
    assert keys' == DistinctKeys(assets', AssetTicker) by {
      AppendRow(assets, asset, AssetTicker);
    }
    assert forall k :: k in table' <==> k in keys';
    forall k | k in keys' ensures table'[k] == LatestFor(assets', k) {
      LatestForAppend(assets, asset, k);
    }
  }

  /** `get_positions`: the positions with a positive whole quantity, keyed
      by ticker, each ticker's symbol looked up in a fresh copy of the
      stored table. It fails when a lookup fails, and when no position is
      kept (the empty table has no `date_purchased` column). */
  method GetPositions(positions: seq<RawPosition>, snapshot: map<string, string>, lookup: string -> Option<string>)
    returns (owned: Option<seq<Asset>>)
    ensures owned.Some? <==> KeptAssets(positions, snapshot, lookup).Some? && KeptAssets(positions, snapshot, lookup).value != []
    ensures owned.Some? ==> owned.value == PositionsTable(KeptAssets(positions, snapshot, lookup).value)
  {
    ghost var assets: seq<Asset> := [];
    var keys: seq<string> := [];
    var whatWeOwn: map<string, Asset> := map[];
    for i := 0 to |positions|
      invariant KeptAssets(positions[..i], snapshot, lookup) == Some(assets)
      invariant Tabulates(keys, whatWeOwn, assets)
    {
      KeptAssetsStep(positions, i, snapshot, lookup);
      var each := positions[i];
      var quantity := Trunc(each.quantity);
      if quantity > 0 {
        var instruments := new SymbolCache(snapshot);
        var ticker := instruments.SymbolFor(each.instrument, lookup);
        if ticker.None? {
          KeptAssetsStops(positions, i, snapshot, lookup);
          return None;
        }
        var asset := Asset(ticker.value, quantity, each.averageBuyPrice, each.updatedAt);
        assert Tabulates(if ticker.value in whatWeOwn then keys else keys + [ticker.value],
                         whatWeOwn[ticker.value := asset], assets + [asset]) by {
          TabulatesAppend(keys, whatWeOwn, assets, asset);
        }
        assets := assets + [asset];
        if ticker.value !in whatWeOwn {
          keys := keys + [ticker.value];
        }
        whatWeOwn := whatWeOwn[ticker.value := asset];
      }
    }
    assert positions[..|positions|] == positions;
    TabulatedRows(keys, whatWeOwn, assets);
    if keys == [] {
      return None;
    }
    owned := Some(TableRows(keys, whatWeOwn));
  }

  /** The rows of the keyed table, in key order. */
  function TableRows(keys: seq<string>, table: map<string, Asset>): (rows: seq<Asset>)
    requires forall k :: k in keys ==> k in table
    ensures |rows| == |keys| && forall i :: 0 <= i < |keys| ==> rows[i] == table[keys[i]]
  {
    seq(|keys|, i requires 0 <= i < |keys| => table[keys[i]])
  }

  /** A table that tabulates the assets lists exactly the positions table,
      and has no rows exactly when there are no assets. */
  lemma TabulatedRows(keys: seq<string>, table: map<string, Asset>, assets: seq<Asset>)
    requires Tabulates(keys, table, assets)
    ensures TableRows(keys, table) == PositionsTable(assets)
    ensures keys == [] <==> assets == []
  {
    var rows := TableRows(keys, table);
    forall i | 0 <= i < |keys| ensures rows[i] == PositionsTable(assets)[i] {
      assert keys[i] in keys;
    }
    if assets != [] {
      assert AssetTicker(assets[0]) in keys;
    }
  }

  /** One more position: kept, skipped, or a failed lookup. */
  lemma KeptAssetsStep(ps: seq<RawPosition>, i: nat, snapshot: map<string, string>, lookup: string -> Option<string>)
    requires i < |ps| && KeptAssets(ps[..i], snapshot, lookup).Some?
    ensures Trunc(ps[i].quantity) <= 0 ==> KeptAssets(ps[..i + 1], snapshot, lookup) == KeptAssets(ps[..i], snapshot, lookup)
    ensures Trunc(ps[i].quantity) > 0 ==>
      (match Resolve(snapshot, ps[i].instrument, lookup).symbol
       case None => KeptAssets(ps[..i + 1], snapshot, lookup).None?
       case Some(ticker) => (KeptAssets(ps[..i + 1], snapshot, lookup)
         == Some(KeptAssets(ps[..i], snapshot, lookup).value + [AssetOf(ps[i], ticker)])))
  {
    assert ps[..i + 1][..i] == ps[..i];
  }

  /** Position `p` is kept as asset `a`: its quantity truncates to a
      positive whole number and its instrument resolves to `a`'s ticker. */
  predicate Yields(p: RawPosition, a: Asset, snapshot: map<string, string>, lookup: string -> Option<string>)
  {
    Trunc(p.quantity) > 0 && Resolve(snapshot, p.instrument, lookup).symbol == Some(a.ticker) && a == AssetOf(p, a.ticker)
  }

  /** Over the whole input, every position whose quantity truncates to a
      positive whole number is kept, as an asset of the symbol its
      instrument resolves to. */
  lemma {:induction false} KeptAssetsComplete(ps: seq<RawPosition>, snapshot: map<string, string>, lookup: string -> Option<string>)
    requires KeptAssets(ps, snapshot, lookup).Some?
    ensures forall i :: 0 <= i < |ps| && Trunc(ps[i].quantity) > 0 ==>
      && Resolve(snapshot, ps[i].instrument, lookup).symbol.Some?
      && AssetOf(ps[i], Resolve(snapshot, ps[i].instrument, lookup).symbol.value) in KeptAssets(ps, snapshot, lookup).value
  {
    if ps != [] {
      var n := |ps| - 1;
      assert ps[..n + 1] == ps;
      assert KeptAssets(ps[..n], snapshot, lookup).Some?;
      KeptAssetsStep(ps, n, snapshot, lookup);
      KeptAssetsComplete(ps[..n], snapshot, lookup);
      forall i | 0 <= i < n && Trunc(ps[i].quantity) > 0
        ensures Resolve(snapshot, ps[i].instrument, lookup).symbol.Some?
        ensures AssetOf(ps[i], Resolve(snapshot, ps[i].instrument, lookup).symbol.value) in KeptAssets(ps, snapshot, lookup).value
      {
        assert ps[..n][i] == ps[i];
      }
    }
  }

  /** Every asset kept comes from a position that yields it. */
  lemma {:induction false} KeptAssetsSound(ps: seq<RawPosition>, snapshot: map<string, string>, lookup: string -> Option<string>)
    requires KeptAssets(ps, snapshot, lookup).Some?
    ensures forall a :: a in KeptAssets(ps, snapshot, lookup).value ==>
      exists i :: 0 <= i < |ps| && Yields(ps[i], a, snapshot, lookup)
  {
    if ps != [] {
      var n := |ps| - 1;
      assert ps[..n + 1] == ps;
      assert KeptAssets(ps[..n], snapshot, lookup).Some?;
      KeptAssetsStep(ps, n, snapshot, lookup);
      KeptAssetsSound(ps[..n], snapshot, lookup);
      forall a | a in KeptAssets(ps, snapshot, lookup).value
        ensures exists i :: 0 <= i < |ps| && Yields(ps[i], a, snapshot, lookup)
      {
        if a in KeptAssets(ps[..n], snapshot, lookup).value {
          var i :| 0 <= i < n && Yields(ps[..n][i], a, snapshot, lookup);
          assert ps[..n][i] == ps[i];
        } else {
          assert Yields(ps[n], a, snapshot, lookup);
        }
      }
    }
  }

  /** A position whose quantity truncates to a positive whole number makes
      the symbol of its instrument owned. */
  lemma PositionOwned(ps: seq<RawPosition>, i: nat, snapshot: map<string, string>, lookup: string -> Option<string>)
    requires KeptAssets(ps, snapshot, lookup).Some?
    requires i < |ps| && Trunc(ps[i].quantity) > 0
    ensures Resolve(snapshot, ps[i].instrument, lookup).symbol.Some?
    ensures CheckIfTickerIsOwned(Resolve(snapshot, ps[i].instrument, lookup).symbol.value,
                                 PositionsTable(KeptAssets(ps, snapshot, lookup).value)) == "owned"
  {
    KeptAssetsComplete(ps, snapshot, lookup);
    var assets := KeptAssets(ps, snapshot, lookup).value;
    var ticker := Resolve(snapshot, ps[i].instrument, lookup).symbol.value;
    var j :| 0 <= j < |assets| && assets[j] == AssetOf(ps[i], ticker);
    OwnedTicker(ticker, assets);
  }

  lemma {:induction false} KeptAssetsStops(ps: seq<RawPosition>, i: nat, snapshot: map<string, string>, lookup: string -> Option<string>)
    requires i < |ps| && KeptAssets(ps[..i + 1], snapshot, lookup).None?
    ensures KeptAssets(ps, snapshot, lookup).None?
    decreases |ps| - i
  {
    if i + 1 < |ps| {
      assert ps[..i + 2][..i + 1] == ps[..i + 1];
      KeptAssetsStops(ps, i + 1, snapshot, lookup);
    } else {
      assert ps[..i + 1] == ps;
    }
  }

  /** `check_if_ticker_is_owned`. */
  function CheckIfTickerIsOwned(ticker: string, positions: seq<Asset>): (answer: string)
    ensures answer == "owned" || answer == "not owned"
    ensures answer == "owned" <==> exists i :: 0 <= i < |positions| && positions[i].ticker == ticker
  {
    if exists i :: 0 <= i < |positions| && positions[i].ticker == ticker then "owned" else "not owned"
  }

  /** A ticker is owned exactly when some kept position resolved to it. */
  lemma OwnedTicker(ticker: string, assets: seq<Asset>)
    ensures CheckIfTickerIsOwned(ticker, PositionsTable(assets)) == "owned"
        <==> exists j :: 0 <= j < |assets| && assets[j].ticker == ticker
  {
    var table := PositionsTable(assets);
    var ks := DistinctKeys(assets, AssetTicker);
    if ticker in ks {
      var i :| 0 <= i < |ks| && ks[i] == ticker;
      assert table[i].ticker == ticker;
    }
  }
}
