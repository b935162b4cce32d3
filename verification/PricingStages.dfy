/** The staged run: wrapped coin, white list, stable coins, then everything else. */
module PricingStages {
  import opened Pricing
  import opened Wrappers

  /** `assets.find`. */
  function FindFirst(assets: seq<Asset>, address: string): (r: Option<Asset>)
    ensures r.Some? ==> r.value in assets && r.value.address == address
    ensures r.None? ==> forall a :: a in assets ==> a.address != address
    ensures r.Some? ==> exists i :: 0 <= i < |assets| && assets[i] == r.value
                                    && forall j :: 0 <= j < i ==> assets[j].address != address
  {
    if assets == [] then None
    else if assets[0].address == address then Some(assets[0])
    else FindFirst(assets[1..], address)
  }

  /** What a map filled in list order holds under an address: the last asset with it. */
  function FindLast(assets: seq<Asset>, address: string): (r: Option<Asset>)
    ensures r.Some? ==> r.value in assets && r.value.address == address
    ensures r.None? ==> forall a :: a in assets ==> a.address != address
    ensures r.Some? ==> exists i :: 0 <= i < |assets| && assets[i] == r.value
                                    && forall j :: i < j < |assets| ==> assets[j].address != address
  {
    if assets == [] then None
    else if assets[|assets| - 1].address == address then Some(assets[|assets| - 1])
    else FindLast(assets[..|assets| - 1], address)
  }

  /** An asset that is not there has no price. */
  function TokenPrice(config: Config, asset: Option<Asset>, reserves: string -> Reserves, category: Category,
                      prices: map<string, real>): Result<Option<real>, Error>
    requires PositiveReserves(reserves)
  {
    if asset.None? then Ok(None)
    else PairsPrice(Valuation(category, asset.value.address, config, reserves, prices), asset.value.pairs)
  }

  /** Setting an address to `undefined` leaves it without a price. */
  function Put(prices: map<string, real>, address: string, price: Option<real>): map<string, real> {
    if price.Some? then prices[address := price.value] else prices - {address}
  }

  /** Prices a list of base coins one after the other, each seeing the earlier ones. */
  function BasePrices(config: Config, assets: seq<Asset>, reserves: string -> Reserves, category: Category,
                      coins: seq<string>, prices: map<string, real>): Result<map<string, real>, Error>
    requires PositiveReserves(reserves)
    decreases |coins|
  {
    if coins == [] then Ok(prices)
    else
      match TokenPrice(config, FindLast(assets, coins[0]), reserves, category, prices)
      case Err(e) => Err(e)
      case Ok(price) => BasePrices(config, assets, reserves, category, coins[1..], Put(prices, coins[0], price))
  }

  /** The price list, after the entries already in `dtos`. */
  function AssetPrices(config: Config, assets: seq<Asset>, reserves: string -> Reserves, prices: map<string, real>,
                       dtos: seq<PriceDto>): Result<seq<PriceDto>, Error>
    requires PositiveReserves(reserves)
    decreases |assets|
  {
    if assets == [] then Ok(dtos)
    else if assets[0].pairs == [] then AssetPrices(config, assets[1..], reserves, prices, dtos)
    else if assets[0].address in prices then
      AssetPrices(config, assets[1..], reserves, prices,
                  dtos + [PriceDto(assets[0].address, prices[assets[0].address])])
    else
      match TokenPrice(config, Some(assets[0]), reserves, Simple, prices)
      case Err(e) => Err(e)
      case Ok(None) => AssetPrices(config, assets[1..], reserves, prices, dtos)
      case Ok(Some(price)) => AssetPrices(config, assets[1..], reserves, prices,
                                          dtos + [PriceDto(assets[0].address, price)])
  }

  function WrappedPrice(config: Config, assets: seq<Asset>, reserves: string -> Reserves): Result<Option<real>, Error>
    requires PositiveReserves(reserves)
  {
    TokenPrice(config, FindFirst(assets, config.wrappedCoin), reserves, Base, map[])
  }

  /** The prices of the base coins after the first three stages. */
  function StagePrices(config: Config, assets: seq<Asset>, reserves: string -> Reserves,
                       wrapped: real): Result<map<string, real>, Error>
    requires PositiveReserves(reserves)
  {
    match BasePrices(config, assets, reserves, Base, config.whiteListCoins, map[config.wrappedCoin := wrapped])
    case Err(e) => Err(e)
    case Ok(prices) => BasePrices(config, assets, reserves, Stable, config.stableCoins, prices)
  }

  function PricesGiven(config: Config, assets: seq<Asset>, reserves: string -> Reserves,
                       wrapped: real): Result<seq<PriceDto>, Error>
    requires PositiveReserves(reserves)
  {
    match StagePrices(config, assets, reserves, wrapped)
    case Err(e) => Err(e)
    case Ok(prices) =>
      match AssetPrices(config, assets, reserves, prices, [])
      case Err(e) => Err(e)
      case Ok(dtos) => Ok(dtos + [PriceDto(ZERO_ADDRESS, wrapped)])
  }

  /** The whole price list; without a price for the wrapped coin the run fails, and the zero
      address gets that price. */
  function PricesFromReserves(config: Config, assets: seq<Asset>,
                              reserves: string -> Reserves): Result<seq<PriceDto>, Error>
    requires PositiveReserves(reserves)
  {
    match WrappedPrice(config, assets, reserves)
    case Err(e) => Err(e)
    case Ok(None) => Err(WrappedCoinNotPriced)
    case Ok(Some(wrapped)) => PricesGiven(config, assets, reserves, wrapped)
  }

  method PriceBaseCoins(config: Config, assets: seq<Asset>, reserves: string -> Reserves, category: Category,
                        coins: seq<string>, start: map<string, real>) returns (r: Result<map<string, real>, Error>)
    requires PositiveReserves(reserves) && PositivePrices(start)
    ensures r == BasePrices(config, assets, reserves, category, coins, start)
    ensures r.Ok? ==> PositivePrices(r.value)
  {
    hide PairsPrice, PositiveReserves;
    var prices := start;
    for k := 0 to |coins|
      invariant PositivePrices(prices)
      invariant BasePrices(config, assets, reserves, category, coins[k..], prices)
                == BasePrices(config, assets, reserves, category, coins, start)
    {
      assert coins[k..][1..] == coins[k + 1..];
      var asset := FindLast(assets, coins[k]);
      var price: Option<real> := None;
      if asset.Some? {
        var priced := GetTokenPrice(Valuation(category, asset.value.address, config, reserves, prices),
                                    asset.value.pairs);
        if priced.Err? {
          return Err(priced.error);
        }
        price := priced.value;
      }
      prices := Put(prices, coins[k], price);
    }
    r := Ok(prices);
  }

  method PriceAssets(config: Config, assets: seq<Asset>, reserves: string -> Reserves, prices: map<string, real>)
    returns (r: Result<seq<PriceDto>, Error>)
    requires PositiveReserves(reserves) && PositivePrices(prices)
    ensures r == AssetPrices(config, assets, reserves, prices, [])
  {
    hide PairsPrice, PositiveReserves, PositivePrices;
    var dtos: seq<PriceDto> := [];
    for k := 0 to |assets|
      invariant AssetPrices(config, assets[k..], reserves, prices, dtos)
                == AssetPrices(config, assets, reserves, prices, [])
    {
      assert assets[k..][1..] == assets[k + 1..];
      var asset := assets[k];
      if asset.pairs != [] {
        if asset.address in prices {
          dtos := dtos + [PriceDto(asset.address, prices[asset.address])];
        } else {
          var priced := GetTokenPrice(Valuation(Simple, asset.address, config, reserves, prices), asset.pairs);
          if priced.Err? {
            return Err(priced.error);
          }
          if priced.value.Some? {
            dtos := dtos + [PriceDto(asset.address, priced.value.value)];
          }
        }
      }
    }
    r := Ok(dtos);
  }

  method GetTokensPricesFromReserves(config: Config, assets: seq<Asset>, reserves: string -> Reserves)
    returns (r: Result<seq<PriceDto>, Error>)
    requires PositiveReserves(reserves)
    ensures r == PricesFromReserves(config, assets, reserves)
  {
    hide PairsPrice, PositiveReserves, BasePrices, AssetPrices;
    var wrappedAsset := FindFirst(assets, config.wrappedCoin);
    if wrappedAsset.None? {
      return Err(WrappedCoinNotPriced);
    }
    var wrapped := GetTokenPrice(Valuation(Base, wrappedAsset.value.address, config, reserves, map[]),
                                 wrappedAsset.value.pairs);
    if wrapped.Err? {
      return Err(wrapped.error);
    }
    if wrapped.value.None? {
      return Err(WrappedCoinNotPriced);
    }
    var afterWhiteList := PriceBaseCoins(config, assets, reserves, Base, config.whiteListCoins,
                                         map[config.wrappedCoin := wrapped.value.value]);
    if afterWhiteList.Err? {
      return Err(afterWhiteList.error);
    }
    var prices := PriceBaseCoins(config, assets, reserves, Stable, config.stableCoins, afterWhiteList.value);
    if prices.Err? {
      return Err(prices.error);
    }
    var dtos := PriceAssets(config, assets, reserves, prices.value);
    if dtos.Err? {
      return Err(dtos.error);
    }
    r := Ok(dtos.value + [PriceDto(ZERO_ADDRESS, wrapped.value.value)]);
  }

  // ---------------------------------------------------------------------------------------
  // The pairs that are asked for
  // ---------------------------------------------------------------------------------------

  datatype PairArguments = PairArguments(baseAsset: string, asset: string, protocol: string)

  /** The bases an asset is paired with: stable coins with the other base coins, white-listed
      coins with stable coins and the wrapped coin, the wrapped coin with stable coins, and
      anything else with every base coin known as an asset. */
  function PossibleBases(config: Config, baseAssets: seq<string>, asset: string): seq<string> {
    if asset in config.stableCoins then config.whiteListCoins + [config.wrappedCoin]
    else if asset in config.whiteListCoins then config.stableCoins + [config.wrappedCoin]
    else if asset == config.wrappedCoin then config.stableCoins
    else baseAssets
  }

  method GetPossibleAssetPairs(coins: seq<string>, protocol: string, asset: string) returns (pairs: seq<PairArguments>)
    ensures |pairs| == |coins|
    ensures forall i :: 0 <= i < |coins| ==> pairs[i] == PairArguments(coins[i], asset, protocol)
  {
    pairs := [];
    for k := 0 to |coins|
      invariant |pairs| == k
      invariant forall i :: 0 <= i < k ==> pairs[i] == PairArguments(coins[i], asset, protocol)
    {
      pairs := pairs + [PairArguments(coins[k], asset, protocol)];
    }
  }

  /** Every protocol is asked for the pair with every possible base, and for no other. */
  method BuildPossibleAssetPairs(config: Config, baseAssets: seq<string>, protocols: seq<string>, asset: string)
    returns (pairs: seq<PairArguments>)
    ensures forall x :: x in pairs <==>
              x.asset == asset && x.protocol in protocols && x.baseAsset in PossibleBases(config, baseAssets, asset)
  {
    pairs := [];
    ghost var bases := PossibleBases(config, baseAssets, asset);
    for k := 0 to |protocols|
      invariant forall x :: x in pairs <==> x.asset == asset && x.protocol in protocols[..k] && x.baseAsset in bases
    {
      var coins;
      if asset in config.stableCoins {
        coins := config.whiteListCoins + [config.wrappedCoin];
      } else if asset in config.whiteListCoins {
        coins := config.stableCoins + [config.wrappedCoin];
      } else if asset == config.wrappedCoin {
        coins := config.stableCoins;
      } else {
        coins := baseAssets;
      }
      var more := GetPossibleAssetPairs(coins, protocols[k], asset);
      assert protocols[..k + 1] == protocols[..k] + [protocols[k]];
      forall x
        ensures x in more <==> x.asset == asset && x.protocol == protocols[k] && x.baseAsset in bases
      {
        if x.baseAsset in bases && x.asset == asset && x.protocol == protocols[k] {
          var i :| 0 <= i < |coins| && coins[i] == x.baseAsset;
          assert more[i] == x;
        }
      }
      pairs := pairs + more;
    }
    assert protocols[..|protocols|] == protocols;
  }
}
