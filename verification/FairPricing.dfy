/** Pools that agree on prices are priced at exactly those prices. */
module FairPricing {
  import opened Pricing
  import opened PricingStages
  import opened RealArithmetic
  import opened Wrappers

  /** A market whose pools all trade at the prices `fair`, with stable coins at 1, the three
      kinds of base coin distinct, one asset per address, and the pairs asked for. */
  datatype Market = Market(config: Config, assets: seq<Asset>, reserves: string -> Reserves, fair: string -> real)
  {
    ghost predicate WellFormed() {
      && PositiveReserves(reserves)
      && (forall address :: fair(address) > 0.0)
      && (forall coin :: coin in config.stableCoins ==> fair(coin) == 1.0)
      && config.wrappedCoin !in config.stableCoins && config.wrappedCoin !in config.whiteListCoins
      && (forall coin :: coin in config.stableCoins ==> coin !in config.whiteListCoins)
      && (forall a, b | a in assets && b in assets :: a.address == b.address ==> a == b)
      && (forall a, pair | a in assets && pair in a.pairs :: AgreesOn(a, pair))
      && (forall a, pair | a in assets && pair in a.pairs :: WasAskedFor(a, pair))
    }

    function BaseOf(a: Asset, pair: Pair): string {
      BaseToken(pair, a.address).address
    }

    function BaseAmount(a: Asset, pair: Pair): real {
      Amount(BaseToken(pair, a.address), reserves(pair.address))
    }

    function OwnAmount(a: Asset, pair: Pair): real {
      Amount(OwnToken(pair, a.address), reserves(pair.address))
    }

    /** Both sides of the pool are worth the same, each raw holding counted in its own token's
        smallest unit. */
    predicate AgreesOn(a: Asset, pair: Pair) {
      var base, own := BaseToken(pair, a.address), OwnToken(pair, a.address);
      var r := reserves(pair.address);
      Holding(base, r) * UnitsOf(own) * fair(base.address) == Holding(own, r) * UnitsOf(base) * fair(a.address)
    }

    predicate IsBaseCoin(address: string) {
      address == config.wrappedCoin || address in config.whiteListCoins || address in config.stableCoins
    }

    function BaseCoins(): seq<string> {
      [config.wrappedCoin] + config.stableCoins + config.whiteListCoins
    }

    predicate WasAskedFor(a: Asset, pair: Pair) {
      BaseOf(a, pair) in PossibleBases(config, BaseCoins(), a.address)
    }

    /** One side of the pool is worth at least the limit. */
    predicate IsDeep(a: Asset, pair: Pair) {
      var base := BaseToken(pair, a.address);
      Holding(base, reserves(pair.address)) * fair(base.address) >= config.liquidityLimit * UnitsOf(base)
    }

    /** The same in whole tokens, as the stages count them. */
    predicate Balanced(a: Asset, pair: Pair) {
      BaseAmount(a, pair) * fair(BaseOf(a, pair)) == OwnAmount(a, pair) * fair(a.address)
    }

    predicate DeepInTokens(a: Asset, pair: Pair) {
      BaseAmount(a, pair) * fair(BaseOf(a, pair)) >= config.liquidityLimit
    }

    ghost predicate HasDeepPair(a: Asset) {
      exists pair :: pair in a.pairs && IsDeep(a, pair)
    }

    /** A base coin is priced when it is an asset with a deep pair. */
    ghost predicate BaseIsPriced(coin: string) {
      IsBaseCoin(coin) && exists a :: a in assets && a.address == coin && HasDeepPair(a)
    }

    /** Any other asset needs a deep pair with a priced base. */
    ghost predicate IsPriced(a: Asset) {
      if IsBaseCoin(a.address) then HasDeepPair(a)
      else exists pair :: pair in a.pairs && IsDeep(a, pair) && BaseIsPriced(BaseOf(a, pair))
    }

    /** Every deep pair of a stable coin has a priced base. */
    ghost predicate StablesSupported() {
      forall a, pair | a in assets && a.address in config.stableCoins && pair in a.pairs ::
        IsDeep(a, pair) ==> BaseIsPriced(BaseOf(a, pair))
    }

    /** The fair price of every priced asset, in order. */
    ghost function FairList(list: seq<Asset>): seq<PriceDto> {
      if list == [] then []
      else OwnEntry(list[0]) + FairList(list[1..])
    }

    ghost function OwnEntry(a: Asset): seq<PriceDto> {
      if IsPriced(a) then [PriceDto(a.address, fair(a.address))] else []
    }

    function ValuationOf(a: Asset, category: Category, prices: map<string, real>): Valuation {
      Valuation(category, a.address, config, reserves, prices)
    }
  }

  /** Whole tokens and smallest units agree on what is fair and what is deep. */
  lemma UnitsAgree(m: Market, a: Asset, pair: Pair)
    ensures m.AgreesOn(a, pair) <==> m.Balanced(a, pair)
    ensures m.IsDeep(a, pair) <==> m.DeepInTokens(a, pair)
  {
    var base, own := BaseToken(pair, a.address), OwnToken(pair, a.address);
    AmountInUnits(base, m.reserves(pair.address));
    AmountInUnits(own, m.reserves(pair.address));
    hide Amount, UnitsOf, Holding, BaseToken, OwnToken;
    var r := m.reserves(pair.address);
    CrossMultiply(m.BaseAmount(a, pair), UnitsOf(base), Holding(base, r), m.fair(base.address),
                  m.OwnAmount(a, pair), UnitsOf(own), Holding(own, r), m.fair(a.address));
    ScaleLimit(m.BaseAmount(a, pair), UnitsOf(base), Holding(base, r), m.fair(base.address), m.config.liquidityLimit);
  }

  /** `prices` holds only fair prices. */
  ghost predicate Fair(m: Market, prices: map<string, real>) {
    forall address :: address in prices ==> prices[address] == m.fair(address)
  }

  // ---------------------------------------------------------------------------------------
  // One asset
  // ---------------------------------------------------------------------------------------

  /** A stage treats the pair fairly: it keeps it only if deep, and values its base at the
      fair price or not at all. */
  ghost predicate FairPair(m: Market, a: Asset, category: Category, prices: map<string, real>, pair: Pair) {
    var val := m.ValuationOf(a, category, prices);
    var v := val.ValueOf(pair);
    && m.Balanced(a, pair)
    && (val.UnitPrice(v.base).Some? ==> val.UnitPrice(v.base).value == m.fair(v.base))
  }

  lemma FairPairTotals(m: Market, a: Asset, category: Category, prices: map<string, real>, pair: Pair)
    requires FairPair(m, a, category, prices, pair)
    ensures var t := TotalsOfPair(m.ValuationOf(a, category, prices), pair);
            t.unpriced == 0 ==> t.usd == t.liquidity * m.fair(a.address)
  {
    hide Valuation.Keeps;
  }

  lemma {:induction false} FairTotals(m: Market, a: Asset, category: Category, prices: map<string, real>,
                                      pairs: seq<Pair>)
    requires forall pair :: pair in pairs ==> FairPair(m, a, category, prices, pair)
    ensures var t := TotalsOfPairs(m.ValuationOf(a, category, prices), pairs);
            t.unpriced == 0 ==> t.usd == t.liquidity * m.fair(a.address)
  {
    hide FairPair, TotalsOfPair;
    if pairs != [] {
      var init, last := pairs[..|pairs| - 1], pairs[|pairs| - 1];
      FairTotals(m, a, category, prices, init);
      FairPairTotals(m, a, category, prices, last);
      var val := m.ValuationOf(a, category, prices);
      Distribute(TotalsOfPairs(val, init).liquidity, TotalsOfPair(val, last).liquidity, m.fair(a.address));
    }
  }

  /** Whether any pair is kept, and whether one is kept without a price for its base. */
  lemma {:induction false} CountsOfTotals(val: Valuation, pairs: seq<Pair>)
    ensures TotalsOfPairs(val, pairs).kept > 0 <==> exists pair :: pair in pairs && val.Keeps(val.ValueOf(pair))
    ensures TotalsOfPairs(val, pairs).unpriced > 0
            <==> exists pair ::
                pair in pairs && val.Keeps(val.ValueOf(pair)) && val.UnitPrice(val.ValueOf(pair).base).None?
  {
    hide Valuation.Keeps, Valuation.ValueOf, Valuation.UnitPrice;
    if pairs != [] {
      CountsOfTotals(val, pairs[..|pairs| - 1]);
      assert pairs == pairs[..|pairs| - 1] + [pairs[|pairs| - 1]];
    }
  }

  ghost predicate AllFair(m: Market, a: Asset, category: Category, prices: map<string, real>) {
    forall pair :: pair in a.pairs ==> FairPair(m, a, category, prices, pair)
  }

  ghost predicate KeepsSome(val: Valuation, pairs: seq<Pair>) {
    exists pair :: pair in pairs && val.Keeps(val.ValueOf(pair))
  }

  ghost predicate KeepsUnpriced(val: Valuation, pairs: seq<Pair>) {
    exists pair :: pair in pairs && val.Keeps(val.ValueOf(pair)) && val.UnitPrice(val.ValueOf(pair).base).None?
  }

  /** A fairly treated asset gets its fair price or none. */
  lemma FairAsset(m: Market, a: Asset, category: Category, prices: map<string, real>)
    requires PositiveReserves(m.reserves) && AllFair(m, a, category, prices)
    ensures var val := m.ValuationOf(a, category, prices);
            PairsPrice(val, a.pairs) ==
            if KeepsUnpriced(val, a.pairs) then Err(BaseNotPriced)
            else if KeepsSome(val, a.pairs) then Ok(Some(m.fair(a.address)))
            else Ok(None)
  {
    hide PositiveReserves, FairPair, TotalsOfPairs, Valuation.Keeps, Valuation.ValueOf, Valuation.UnitPrice;
    var val := m.ValuationOf(a, category, prices);
    FairTotals(m, a, category, prices, a.pairs);
    CountsOfTotals(val, a.pairs);
    LiquidityIsPositive(val, a.pairs);
    var t := TotalsOfPairs(val, a.pairs);
    assert KeepsSome(val, a.pairs) <==> t.kept > 0;
    assert KeepsUnpriced(val, a.pairs) <==> t.unpriced > 0;
    if t.kept > 0 && t.unpriced == 0 {
      DivideOut(t.usd, t.liquidity, m.fair(a.address));
    }
  }

  lemma DivideOut(usd: real, total: real, price: real)
    requires total > 0.0 && usd == total * price
    ensures usd / total == price
  {
  }

  // ---------------------------------------------------------------------------------------
  // One stage
  // ---------------------------------------------------------------------------------------

  /** The wrapped coin is priced against stable coins, and a white-listed coin against stable
      coins and the wrapped coin, once that has its price. */
  lemma BasePairIsFair(m: Market, a: Asset, prices: map<string, real>, pair: Pair)
    requires m.WellFormed() && Fair(m, prices) && a in m.assets && pair in a.pairs
    requires a.address == m.config.wrappedCoin
             || (a.address in m.config.whiteListCoins && m.config.wrappedCoin in prices)
    ensures FairPair(m, a, Base, prices, pair)
    ensures var val := m.ValuationOf(a, Base, prices);
            && (val.Keeps(val.ValueOf(pair)) <==> m.IsDeep(a, pair))
            && val.UnitPrice(val.ValueOf(pair).base).Some?
  {
    UnitsAgree(m, a, pair);
    hide PositiveReserves, Amount, BaseToken, OwnToken, Market.AgreesOn, Market.IsDeep;
    assert m.AgreesOn(a, pair) && m.WasAskedFor(a, pair);
    var base := m.BaseOf(a, pair);
    assert base in m.config.stableCoins || base == m.config.wrappedCoin;
  }

  lemma StablePairIsFair(m: Market, a: Asset, prices: map<string, real>, pair: Pair)
    requires m.WellFormed() && Fair(m, prices) && a in m.assets && pair in a.pairs && a.address in m.config.stableCoins
    ensures FairPair(m, a, Stable, prices, pair)
    ensures var val := m.ValuationOf(a, Stable, prices);
            && (val.Keeps(val.ValueOf(pair)) <==> m.IsDeep(a, pair))
            && (val.UnitPrice(val.ValueOf(pair).base).None? <==> m.BaseOf(a, pair) !in prices)
            && m.BaseOf(a, pair) !in m.config.stableCoins && m.IsBaseCoin(m.BaseOf(a, pair))
  {
    UnitsAgree(m, a, pair);
    hide PositiveReserves, Amount, BaseToken, OwnToken, Market.AgreesOn, Market.IsDeep;
    assert m.AgreesOn(a, pair) && m.WasAskedFor(a, pair);
    var base := m.BaseOf(a, pair);
    assert base in m.config.whiteListCoins || base == m.config.wrappedCoin;
  }

  lemma SimplePairIsFair(m: Market, a: Asset, prices: map<string, real>, pair: Pair)
    requires m.WellFormed() && Fair(m, prices) && a in m.assets && pair in a.pairs
    ensures FairPair(m, a, Simple, prices, pair)
    ensures var val := m.ValuationOf(a, Simple, prices);
            val.Keeps(val.ValueOf(pair)) <==> m.BaseOf(a, pair) in prices && m.IsDeep(a, pair)
  {
    UnitsAgree(m, a, pair);
    hide PositiveReserves, Amount, BaseToken, OwnToken, Market.AgreesOn, Market.IsDeep;
    assert m.AgreesOn(a, pair);
    var base := m.BaseOf(a, pair);
    assert m.fair(base) > 0.0;
  }

  /** The result of pricing one base coin at its own stage. */
  lemma BaseCoinIsFair(m: Market, coin: string, prices: map<string, real>, found: Option<Asset>)
    requires m.WellFormed() && Fair(m, prices)
    requires found == FindFirst(m.assets, coin) || found == FindLast(m.assets, coin)
    requires coin == m.config.wrappedCoin || (coin in m.config.whiteListCoins && m.config.wrappedCoin in prices)
    ensures TokenPrice(m.config, found, m.reserves, Base, prices)
            == Ok(if m.BaseIsPriced(coin) then Some(m.fair(coin)) else None)
  {
    if found.Some? {
      var a := found.value;
      forall pair | pair in a.pairs
        ensures FairPair(m, a, Base, prices, pair)
        ensures var val := m.ValuationOf(a, Base, prices);
                (val.Keeps(val.ValueOf(pair)) <==> m.IsDeep(a, pair)) && val.UnitPrice(val.ValueOf(pair).base).Some?
      {
        BasePairIsFair(m, a, prices, pair);
      }
      hide PairsPrice, FairPair, PositiveReserves, Market.IsDeep, Valuation.Keeps, Valuation.ValueOf,
           Valuation.UnitPrice,
           Market.AgreesOn, Market.Balanced, Market.WasAskedFor, FindFirst, FindLast;
      FairAsset(m, a, Base, prices);
      assert KeepsSome(m.ValuationOf(a, Base, prices), a.pairs) <==> m.HasDeepPair(a);
      assert m.BaseIsPriced(coin) <==> m.HasDeepPair(a);
    }
  }

  /** Every deep pair of the coin, if it is an asset, has a base with a price. */
  ghost predicate CoinSupported(m: Market, coin: string) {
    forall a, pair | a in m.assets && a.address == coin && pair in a.pairs ::
      m.IsDeep(a, pair) ==> m.BaseIsPriced(m.BaseOf(a, pair))
  }

  /** `prices` covers exactly the priced wrapped and white-listed coins among the non-stable
      addresses. */
  ghost predicate CoversBases(m: Market, prices: map<string, real>) {
    forall coin :: coin !in m.config.stableCoins && m.IsBaseCoin(coin) ==> (coin in prices <==> m.BaseIsPriced(coin))
  }

  lemma StableCoinIsFair(m: Market, coin: string, prices: map<string, real>)
    requires m.WellFormed() && Fair(m, prices) && CoversBases(m, prices) && coin in m.config.stableCoins
    ensures TokenPrice(m.config, FindLast(m.assets, coin), m.reserves, Stable, prices)
            == if !CoinSupported(m, coin) then Err(BaseNotPriced)
               else Ok(if m.BaseIsPriced(coin) then Some(m.fair(coin)) else None)
  {
    var found := FindLast(m.assets, coin);
    if found.Some? {
      var a := found.value;
      forall pair | pair in a.pairs
        ensures FairPair(m, a, Stable, prices, pair)
        ensures var val := m.ValuationOf(a, Stable, prices);
                && (val.Keeps(val.ValueOf(pair)) <==> m.IsDeep(a, pair))
                && (val.UnitPrice(val.ValueOf(pair).base).None? <==> !m.BaseIsPriced(m.BaseOf(a, pair)))
      {
        StablePairIsFair(m, a, prices, pair);
      }
      hide PairsPrice, FairPair, PositiveReserves, Market.IsDeep, Valuation.Keeps, Valuation.ValueOf,
           Valuation.UnitPrice,
           Market.AgreesOn, Market.Balanced, Market.WasAskedFor, FindFirst, FindLast, CoversBases, Market.BaseOf;
      FairAsset(m, a, Stable, prices);
      var val := m.ValuationOf(a, Stable, prices);
      assert KeepsSome(val, a.pairs) <==> m.HasDeepPair(a);
      assert m.BaseIsPriced(coin) <==> m.HasDeepPair(a);
      assert KeepsUnpriced(val, a.pairs) <==> !CoinSupported(m, coin);
    }
  }

  // ---------------------------------------------------------------------------------------
  // The run
  // ---------------------------------------------------------------------------------------

  ghost predicate PricedAfter(m: Market, coins: seq<string>, before: map<string, real>, after: map<string, real>) {
    forall coin :: coin in after <==> if coin in coins then m.BaseIsPriced(coin) else coin in before
  }

  lemma {:induction false} WhiteListIsFair(m: Market, coins: seq<string>, prices: map<string, real>)
    requires m.WellFormed() && Fair(m, prices) && m.config.wrappedCoin in prices
    requires forall coin :: coin in coins ==> coin in m.config.whiteListCoins
    ensures var r := BasePrices(m.config, m.assets, m.reserves, Base, coins, prices);
            r.Ok? && Fair(m, r.value) && PricedAfter(m, coins, prices, r.value)
    decreases |coins|
  {
    if coins != [] {
      BaseCoinIsFair(m, coins[0], prices, FindLast(m.assets, coins[0]));
      var price := if m.BaseIsPriced(coins[0]) then Some(m.fair(coins[0])) else None;
      hide TokenPrice, Market.BaseIsPriced, FindLast, PositiveReserves;
      WhiteListIsFair(m, coins[1..], Put(prices, coins[0], price));
    }
  }

  lemma {:induction false} StablesAreFair(m: Market, coins: seq<string>, prices: map<string, real>)
    requires m.WellFormed() && Fair(m, prices) && CoversBases(m, prices)
    requires forall coin :: coin in coins ==> coin in m.config.stableCoins
    ensures var r := BasePrices(m.config, m.assets, m.reserves, Stable, coins, prices);
            && (r.Ok? <==> forall coin :: coin in coins ==> CoinSupported(m, coin))
            && (r.Ok? ==> Fair(m, r.value) && PricedAfter(m, coins, prices, r.value))
            && (r.Err? ==> r.error == BaseNotPriced)
    decreases |coins|
  {
    if coins != [] {
      StableCoinIsFair(m, coins[0], prices);
      var price := if m.BaseIsPriced(coins[0]) then Some(m.fair(coins[0])) else None;
      hide TokenPrice, Market.BaseIsPriced, FindLast, CoinSupported, PositiveReserves;
      if CoinSupported(m, coins[0]) {
        StablesAreFair(m, coins[1..], Put(prices, coins[0], price));
      }
    }
  }

  /** `prices` covers exactly the priced base coins. */
  ghost predicate Covers(m: Market, prices: map<string, real>) {
    forall coin :: coin in prices <==> m.BaseIsPriced(coin)
  }

  lemma RestIsFair(m: Market, a: Asset, prices: map<string, real>)
    requires m.WellFormed() && Fair(m, prices) && Covers(m, prices) && a in m.assets && a.address !in prices
    ensures TokenPrice(m.config, Some(a), m.reserves, Simple, prices)
            == Ok(if m.IsPriced(a) then Some(m.fair(a.address)) else None)
  {
    forall pair | pair in a.pairs
      ensures FairPair(m, a, Simple, prices, pair)
      ensures var val := m.ValuationOf(a, Simple, prices);
              && (val.Keeps(val.ValueOf(pair)) <==> m.BaseIsPriced(m.BaseOf(a, pair)) && m.IsDeep(a, pair))
              && (val.Keeps(val.ValueOf(pair)) ==> val.UnitPrice(val.ValueOf(pair).base).Some?)
    {
      SimplePairIsFair(m, a, prices, pair);
    }
    var val := m.ValuationOf(a, Simple, prices);
    assert m.IsBaseCoin(a.address) ==> !m.HasDeepPair(a);
    hide PairsPrice, FairPair, PositiveReserves, Market.IsDeep, Valuation.Keeps, Valuation.ValueOf, Valuation.UnitPrice,
         Market.AgreesOn, Market.Balanced, Market.WasAskedFor, Market.BaseOf, Market.BaseIsPriced;
    FairAsset(m, a, Simple, prices);
    assert KeepsSome(val, a.pairs) <==> m.IsPriced(a);
    assert !KeepsUnpriced(val, a.pairs);
  }

  lemma ListStep(m: Market, list: seq<Asset>, prices: map<string, real>, dtos: seq<PriceDto>)
    requires m.WellFormed() && Fair(m, prices) && Covers(m, prices) && list != [] && list[0] in m.assets
    ensures AssetPrices(m.config, list, m.reserves, prices, dtos)
            == AssetPrices(m.config, list[1..], m.reserves, prices, dtos + m.OwnEntry(list[0]))
  {
    var a := list[0];
    if a.address in prices {
      assert m.IsPriced(a);
    } else {
      RestIsFair(m, a, prices);
    }
    NothingToPrice(m, a);
    hide TokenPrice, Market.IsPriced, Market.WellFormed, Covers;
    assert dtos + [] == dtos;
  }

  lemma {:induction false} ListIsFair(m: Market, list: seq<Asset>, prices: map<string, real>, dtos: seq<PriceDto>)
    requires m.WellFormed() && Fair(m, prices) && Covers(m, prices)
    requires forall a :: a in list ==> a in m.assets
    ensures AssetPrices(m.config, list, m.reserves, prices, dtos) == Ok(dtos + m.FairList(list))
    decreases |list|
  {
    if list == [] {
      assert dtos + [] == dtos;
    } else {
      ListStep(m, list, prices, dtos);
      hide TokenPrice, Market.OwnEntry, Fair, Covers;
      ListIsFair(m, list[1..], prices, dtos + m.OwnEntry(list[0]));
      assert dtos + m.OwnEntry(list[0]) + m.FairList(list[1..]) == dtos + (m.OwnEntry(list[0]) + m.FairList(list[1..]));
    }
  }

  lemma NothingToPrice(m: Market, a: Asset)
    ensures a.pairs == [] ==> !m.IsPriced(a)
  {
  }

  /** On a market without arbitrage the stages return exactly the fair price of every asset
      they can reach, and the wrapped coin's for the zero address. The run succeeds exactly
      when the wrapped coin has a deep pair and the deep pairs of stable coins have priced
      bases. */
  lemma FairMarketIsPricedFairly(m: Market)
    requires m.WellFormed()
    ensures PricesFromReserves(m.config, m.assets, m.reserves) ==
            if !m.BaseIsPriced(m.config.wrappedCoin) then Err(WrappedCoinNotPriced)
            else if !m.StablesSupported() then Err(BaseNotPriced)
            else Ok(m.FairList(m.assets) + [PriceDto(ZERO_ADDRESS, m.fair(m.config.wrappedCoin))])
  {
    var wrapped := m.config.wrappedCoin;
    BaseCoinIsFair(m, wrapped, map[], FindFirst(m.assets, wrapped));
    if m.BaseIsPriced(wrapped) {
      StagesAreFair(m);
    }
  }

  lemma BaseStagesAreFair(m: Market)
    requires m.WellFormed() && m.BaseIsPriced(m.config.wrappedCoin)
    ensures var r := StagePrices(m.config, m.assets, m.reserves, m.fair(m.config.wrappedCoin));
            && (r.Ok? <==> m.StablesSupported())
            && (r.Ok? ==> Fair(m, r.value) && Covers(m, r.value))
            && (r.Err? ==> r.error == BaseNotPriced)
  {
    assert PositiveReserves(m.reserves);
    hide PositiveReserves, BasePrices, Market.WellFormed, Market.BaseIsPriced, CoinSupported, CoversBases, Covers,
         Fair, PricedAfter,
         Market.StablesSupported;
    var c := m.config;
    var start := map[c.wrappedCoin := m.fair(c.wrappedCoin)];
    StartIsFair(m);
    WhiteListIsFair(m, c.whiteListCoins, start);
    var white := BasePrices(c, m.assets, m.reserves, Base, c.whiteListCoins, start).value;
    WhiteListCovers(m, white);
    StablesAreFair(m, c.stableCoins, white);
    SupportedCoinByCoin(m);
    var last := BasePrices(c, m.assets, m.reserves, Stable, c.stableCoins, white);
    if last.Ok? {
      StablesCover(m, white, last.value);
    }
  }

  lemma StagesAreFair(m: Market)
    requires m.WellFormed() && m.BaseIsPriced(m.config.wrappedCoin)
    ensures PricesGiven(m.config, m.assets, m.reserves, m.fair(m.config.wrappedCoin)) ==
            if !m.StablesSupported() then Err(BaseNotPriced)
            else Ok(m.FairList(m.assets) + [PriceDto(ZERO_ADDRESS, m.fair(m.config.wrappedCoin))])
  {
    assert PositiveReserves(m.reserves);
    hide PositiveReserves, StagePrices, AssetPrices, Market.WellFormed, Market.BaseIsPriced, Covers, Fair,
         Market.FairList,
         Market.StablesSupported;
    BaseStagesAreFair(m);
    var r := StagePrices(m.config, m.assets, m.reserves, m.fair(m.config.wrappedCoin));
    if r.Ok? {
      ListIsFair(m, m.assets, r.value, []);
      assert [] + m.FairList(m.assets) == m.FairList(m.assets);
    }
  }

  lemma StartIsFair(m: Market)
    ensures Fair(m, map[m.config.wrappedCoin := m.fair(m.config.wrappedCoin)])
  {
  }

  lemma WhiteListCovers(m: Market, white: map<string, real>)
    requires m.WellFormed() && m.BaseIsPriced(m.config.wrappedCoin)
    requires PricedAfter(m, m.config.whiteListCoins, map[m.config.wrappedCoin := m.fair(m.config.wrappedCoin)], white)
    ensures CoversBases(m, white)
    ensures forall coin :: coin in white ==> m.BaseIsPriced(coin)
  {
    hide Market.BaseIsPriced, PositiveReserves, Market.AgreesOn, Market.Balanced, Market.WasAskedFor;
  }

  lemma StablesCover(m: Market, white: map<string, real>, prices: map<string, real>)
    requires CoversBases(m, white) && PricedAfter(m, m.config.stableCoins, white, prices)
    requires forall coin :: coin in white ==> m.BaseIsPriced(coin)
    ensures Covers(m, prices)
  {
    forall coin
      ensures coin in prices <==> m.BaseIsPriced(coin)
    {
    }
  }

  lemma SupportedCoinByCoin(m: Market)
    ensures m.StablesSupported() <==> forall coin :: coin in m.config.stableCoins ==> CoinSupported(m, coin)
  {
    hide Market.BaseIsPriced, Market.IsDeep, Market.BaseOf;
    if forall coin :: coin in m.config.stableCoins ==> CoinSupported(m, coin) {
      forall a, pair | a in m.assets && a.address in m.config.stableCoins && pair in a.pairs
        ensures m.IsDeep(a, pair) ==> m.BaseIsPriced(m.BaseOf(a, pair))
      {
        assert CoinSupported(m, a.address);
      }
    }
  }
}
