/** Token prices from the reserves of automated market maker pairs. Amounts are exact reals
    and reserves are positive. */
module Pricing {
  import opened Decimals
  import opened Multisets
  import opened RealArithmetic
  import opened Wrappers

  datatype Side = Position0 | Position1

  datatype Token = Token(address: string, decimals: Option<nat>, position: Side)

  datatype Pair = Pair(address: string, token0: Token, token1: Token)

  datatype Asset = Asset(address: string, pairs: seq<Pair>)

  datatype Reserves = Reserves(reserve0: real, reserve1: real) {
    function At(side: Side): real {
      if side.Position0? then reserve0 else reserve1
    }
  }

  datatype Config = Config(wrappedCoin: string, whiteListCoins: seq<string>, stableCoins: seq<string>,
                           liquidityLimit: real)

  /** The pricing rule of a stage. */
  datatype Category = Base | Stable | Simple

  datatype PriceDto = PriceDto(address: string, price: real)

  /** Both are reads of a field of `undefined`, which abort the whole run. */
  datatype Error = BaseNotPriced | WrappedCoinNotPriced

  const DEFAULT_DECIMALS: nat := 18
  const ZERO_ADDRESS: string := "0x0000000000000000000000000000000000000000"

  ghost predicate PositiveReserves(reserves: string -> Reserves) {
    forall address :: reserves(address).reserve0 > 0.0 && reserves(address).reserve1 > 0.0
  }

  ghost predicate PositivePrices(prices: map<string, real>) {
    forall address :: address in prices ==> prices[address] > 0.0
  }

  function Amount(token: Token, reserves: Reserves): real {
    reserves.At(token.position) / Pow10(if token.decimals.Some? then token.decimals.value else DEFAULT_DECIMALS)
  }

  // ---------------------------------------------------------------------------------------
  // Holdings in a token's smallest unit
  // ---------------------------------------------------------------------------------------

  /** The pool's raw holding of a token: the token's position says which of the two numbers. */
  function Holding(token: Token, reserves: Reserves): real {
    match token.position
    case Position0 => reserves.reserve0
    case Position1 => reserves.reserve1
  }

  /** How many smallest units make one token: a token without decimals has eighteen. */
  function UnitsOf(token: Token): (r: real)
    ensures r > 0.0
  {
    match token.decimals
    case Some(decimals) => Pow10(decimals)
    case None => Pow10(18)
  }

  lemma AmountInUnits(token: Token, reserves: Reserves)
    ensures Amount(token, reserves) * UnitsOf(token) == Holding(token, reserves)
  {
  }

  /** The token that is not the asset; the first when neither is. */
  function BaseToken(pair: Pair, asset: string): (t: Token)
    ensures t == pair.token0 || t == pair.token1
    ensures HasAsset(pair, asset) ==> t.address != asset
  {
    if pair.token0.address == asset then pair.token1 else pair.token0
  }

  function OwnToken(pair: Pair, asset: string): (t: Token)
    ensures pair == Pair(pair.address, t, BaseToken(pair, asset))
            || pair == Pair(pair.address, BaseToken(pair, asset), t)
    ensures HasAsset(pair, asset) ==> t.address == asset
  {
    if pair.token0.address == asset then pair.token0 else pair.token1
  }

  datatype ReserveValue = ReserveValue(base: string, baseReserve: real, assetReserve: real)

  /** How one stage values one asset. */
  datatype Valuation = Valuation(category: Category, asset: string, config: Config,
                                 reserves: string -> Reserves, prices: map<string, real>)
  {
    function ValueOf(pair: Pair): ReserveValue {
      ReserveValue(BaseToken(pair, asset).address,
                   Amount(BaseToken(pair, asset), reserves(pair.address)),
                   Amount(OwnToken(pair, asset), reserves(pair.address)))
    }

    /** Whether the pair passes the liquidity limit under the stage's rule. */
    predicate Keeps(v: ReserveValue) {
      match category
      case Base => (if v.base in prices then prices[v.base] * v.baseReserve else v.baseReserve) >= config.liquidityLimit
      case Stable => v.assetReserve >= config.liquidityLimit
      case Simple =>
        v.base in prices && prices[v.base] != 0.0 && v.baseReserve * prices[v.base] >= config.liquidityLimit
    }

    /** The price the stage takes for a base token: a base stage counts every base other than
        the wrapped coin as 1. */
    function UnitPrice(base: string): Option<real> {
      if category.Base? && base != config.wrappedCoin then Some(1.0)
      else if base in prices then Some(prices[base])
      else None
    }
  }

  // ---------------------------------------------------------------------------------------
  // The reference: sums over the retained pairs
  // ---------------------------------------------------------------------------------------

  /** Retained pairs, those among them with an unpriced base, their liquidity in the asset,
      and the value of their base reserves. */
  datatype Totals = Totals(kept: nat, unpriced: nat, liquidity: real, usd: real) {
    function Plus(other: Totals): Totals {
      Totals(kept + other.kept, unpriced + other.unpriced, liquidity + other.liquidity, usd + other.usd)
    }
  }

  const NOTHING := Totals(0, 0, 0.0, 0.0)

  function TotalsOfValue(val: Valuation, v: ReserveValue): Totals {
    match val.UnitPrice(v.base)
    case Some(price) => Totals(1, 0, v.assetReserve, v.baseReserve * price)
    case None => Totals(1, 1, v.assetReserve, 0.0)
  }

  function TotalsOfPair(val: Valuation, pair: Pair): Totals {
    if val.Keeps(val.ValueOf(pair)) then TotalsOfValue(val, val.ValueOf(pair)) else NOTHING
  }

  function TotalsOfPairs(val: Valuation, pairs: seq<Pair>): Totals {
    if pairs == [] then NOTHING
    else TotalsOfPairs(val, pairs[..|pairs| - 1]).Plus(TotalsOfPair(val, pairs[|pairs| - 1]))
  }

  /** The total value of the retained base reserves over the total retained liquidity;
      `None` when no pair is retained. */
  function MeanPrice(t: Totals): Result<Option<real>, Error>
    requires t.kept > 0 ==> t.liquidity > 0.0
  {
    if t.kept == 0 then Ok(None)
    else if t.unpriced > 0 then Err(BaseNotPriced)
    else Ok(Some(t.usd / t.liquidity))
  }

  lemma ValuesArePositive(val: Valuation, pair: Pair)
    requires PositiveReserves(val.reserves)
    ensures val.ValueOf(pair).baseReserve > 0.0 && val.ValueOf(pair).assetReserve > 0.0
  {
    var r := val.reserves(pair.address);
    assert r.reserve0 > 0.0 && r.reserve1 > 0.0;
  }

  lemma {:induction false} LiquidityIsPositive(val: Valuation, pairs: seq<Pair>)
    requires PositiveReserves(val.reserves)
    ensures TotalsOfPairs(val, pairs).liquidity >= 0.0
    ensures TotalsOfPairs(val, pairs).kept > 0 ==> TotalsOfPairs(val, pairs).liquidity > 0.0
  {
    if pairs != [] {
      LiquidityIsPositive(val, pairs[..|pairs| - 1]);
      ValuesArePositive(val, pairs[|pairs| - 1]);
    }
  }

  function PairsPrice(val: Valuation, pairs: seq<Pair>): Result<Option<real>, Error>
    requires PositiveReserves(val.reserves)
  {
    LiquidityIsPositive(val, pairs);
    MeanPrice(TotalsOfPairs(val, pairs))
  }

  // ---------------------------------------------------------------------------------------
  // The two accumulating loops
  // ---------------------------------------------------------------------------------------

  function TotalsOfValues(val: Valuation, values: seq<ReserveValue>): Totals {
    if values == [] then NOTHING
    else TotalsOfValues(val, values[..|values| - 1]).Plus(TotalsOfValue(val, values[|values| - 1]))
  }

  lemma {:induction false} TotalsOfValuesGrow(val: Valuation, values: seq<ReserveValue>, k: nat)
    requires k <= |values|
    ensures TotalsOfValues(val, values[..k]).unpriced <= TotalsOfValues(val, values).unpriced
    ensures TotalsOfValues(val, values).kept == |values|
  {
    if k < |values| {
      TotalsOfValuesGrow(val, values[..|values| - 1], k);
      assert values[..|values| - 1][..k] == values[..k];
    } else {
      assert values[..k] == values;
      if values != [] {
        TotalsOfValuesGrow(val, values[..|values| - 1], k - 1);
      }
    }
  }

  lemma TotalsOfValuesPush(val: Valuation, values: seq<ReserveValue>, v: ReserveValue)
    ensures TotalsOfValues(val, values + [v]) == TotalsOfValues(val, values).Plus(TotalsOfValue(val, v))
  {
    assert (values + [v])[..|values|] == values;
  }

  /** Weight times spot price is the value over the total. */
  lemma WeightedSpot(base: real, asset: real, unit: real, total: real)
    requires asset > 0.0 && total > 0.0
    ensures (asset / total) * (base * unit / asset) * total == base * unit
  {
    var weight, spot := asset / total, base * unit / asset;
    assert weight * total == asset;
    assert spot * asset == base * unit;
    assert weight * spot * total == spot * (weight * total);
  }

  /** What one retained pair adds to the price; a stable stage replaces 0 by 1. */
  method PriceOf(val: Valuation, v: ReserveValue, totalLiquidity: real) returns (r: Option<real>)
    requires v.assetReserve > 0.0 && v.baseReserve > 0.0 && totalLiquidity > 0.0 && PositivePrices(val.prices)
    ensures r.Some? <==> val.UnitPrice(v.base).Some?
    ensures r.Some? ==> r.value > 0.0 && r.value * totalLiquidity == v.baseReserve * val.UnitPrice(v.base).value
  {
    var unit := val.UnitPrice(v.base);
    if unit.None? {
      return None;
    }
    var weight := v.assetReserve / totalLiquidity;
    var spot := v.baseReserve * unit.value / v.assetReserve;
    var price := weight * spot;
    WeightedSpot(v.baseReserve, v.assetReserve, unit.value, totalLiquidity);
    PositiveProduct(v.baseReserve, unit.value);
    PositiveFactor(price, totalLiquidity);
    r := Some(if val.category.Stable? && price == 0.0 then 1.0 else price);
  }

  ghost predicate AllPositive(values: seq<ReserveValue>) {
    forall i :: 0 <= i < |values| ==> values[i].assetReserve > 0.0 && values[i].baseReserve > 0.0
  }

  lemma TotalsOfPairsPush(val: Valuation, pairs: seq<Pair>, k: nat)
    requires k < |pairs|
    ensures TotalsOfPairs(val, pairs[..k + 1]) == TotalsOfPairs(val, pairs[..k]).Plus(TotalsOfPair(val, pairs[k]))
  {
    hide TotalsOfPair;
    assert pairs[..k + 1][..k] == pairs[..k];
  }

  method RetainedValues(val: Valuation, pairs: seq<Pair>) returns (values: seq<ReserveValue>, totalLiquidity: real)
    requires PositiveReserves(val.reserves)
    ensures AllPositive(values)
    ensures TotalsOfValues(val, values) == TotalsOfPairs(val, pairs)
    ensures totalLiquidity == TotalsOfPairs(val, pairs).liquidity
  {
    hide PositiveReserves, TotalsOfValues, TotalsOfPairs, Valuation.Keeps, Valuation.ValueOf, Valuation.UnitPrice;
    values, totalLiquidity := [], 0.0;
    EmptyTotals(val);
    for k := 0 to |pairs|
      invariant AllPositive(values)
      invariant TotalsOfValues(val, values) == TotalsOfPairs(val, pairs[..k])
      invariant totalLiquidity == TotalsOfPairs(val, pairs[..k]).liquidity
    {
      TotalsOfPairsPush(val, pairs, k);
      var v := val.ValueOf(pairs[k]);
      if val.Keeps(v) {
        ValuesArePositive(val, pairs[k]);
        TotalsOfValuesPush(val, values, v);
        totalLiquidity := totalLiquidity + v.assetReserve;
        values := values + [v];
      }
    }
    assert pairs[..|pairs|] == pairs;
  }

  lemma EmptyTotals(val: Valuation)
    ensures TotalsOfPairs(val, []) == NOTHING && TotalsOfValues(val, []) == NOTHING
  {
  }

  /** The sum of what every retained pair adds. */
  method SumPrices(val: Valuation, values: seq<ReserveValue>, total: real) returns (price: Option<real>)
    requires AllPositive(values) && total > 0.0 && PositivePrices(val.prices) && values != []
    ensures price.Some? <==> TotalsOfValues(val, values).unpriced == 0
    ensures price.Some? ==> price.value > 0.0 && price.value * total == TotalsOfValues(val, values).usd
  {
    hide TotalsOfValues, Valuation.UnitPrice;
    var sum := 0.0;
    EmptyTotals(val);
    for k := 0 to |values|
      invariant TotalsOfValues(val, values[..k]).unpriced == 0
      invariant sum * total == TotalsOfValues(val, values[..k]).usd
      invariant sum >= 0.0 && (k > 0 ==> sum > 0.0)
    {
      assert values[..k + 1] == values[..k] + [values[k]];
      TotalsOfValuesPush(val, values[..k], values[k]);
      var share := PriceOf(val, values[k], total);
      if share.None? {
        TotalsOfValuesGrow(val, values, k + 1);
        return None;
      }
      Distribute(sum, share.value, total);
      sum := sum + share.value;
    }
    assert values[..|values|] == values;
    price := Some(sum);
  }

  /** The price of one asset at one stage, summed pair by pair as weight times spot price. */
  method GetTokenPrice(val: Valuation, pairs: seq<Pair>) returns (r: Result<Option<real>, Error>)
    requires PositiveReserves(val.reserves) && PositivePrices(val.prices)
    ensures r == PairsPrice(val, pairs)
    ensures r.Ok? && r.value.Some? ==> r.value.value > 0.0
  {
    hide PositiveReserves, PositivePrices, TotalsOfValues, TotalsOfPairs, AllPositive;
    LiquidityIsPositive(val, pairs);
    var values, total := RetainedValues(val, pairs);
    TotalsOfValuesGrow(val, values, |values|);
    if values == [] {
      return Ok(None);
    }
    var price := SumPrices(val, values, total);
    if price.None? {
      return Err(BaseNotPriced);
    }
    DivideBack(price.value, total, TotalsOfPairs(val, pairs).usd);
    r := Ok(price);
  }

  // ---------------------------------------------------------------------------------------
  // Properties of a price
  // ---------------------------------------------------------------------------------------

  /** The token's holding, counted at a price or at 1, is worth the limit. */
  predicate IsWorthLimit(val: Valuation, pair: Pair, token: Token, price: Option<real>) {
    var holding, limit := Holding(token, val.reserves(pair.address)), val.config.liquidityLimit * UnitsOf(token);
    match price
    case Some(p) => holding * p >= limit
    case None => holding >= limit
  }

  lemma WorthInTokens(val: Valuation, pair: Pair, token: Token, price: Option<real>)
    ensures var amount := Amount(token, val.reserves(pair.address));
            IsWorthLimit(val, pair, token, price) <==>
            (if price.Some? then amount * price.value else amount) >= val.config.liquidityLimit
  {
    var r, limit := val.reserves(pair.address), val.config.liquidityLimit;
    AmountInUnits(token, r);
    hide Amount, UnitsOf, Holding;
    if price.Some? {
      ScaleLimit(Amount(token, r), UnitsOf(token), Holding(token, r), price.value, limit);
    } else {
      SameOrder(Amount(token, r), limit, Holding(token, r), limit * UnitsOf(token), UnitsOf(token));
    }
  }

  function PriceAt(prices: map<string, real>, address: string): Option<real> {
    if address in prices then Some(prices[address]) else None
  }

  /** What a stage pays for a base token: its price so far, except that a base stage takes every
      base other than the wrapped coin for one dollar. */
  function PaidFor(val: Valuation, base: string): Option<real> {
    match val.category
    case Base => if base == val.config.wrappedCoin then PriceAt(val.prices, base) else Some(1.0)
    case Stable => PriceAt(val.prices, base)
    case Simple => PriceAt(val.prices, base)
  }

  lemma UnitPriceIsPaid(val: Valuation, base: string)
    ensures val.UnitPrice(base) == PaidFor(val, base)
  {
  }

  /** A pair passes the limit by its raw holdings: at a stable stage by the asset's own, at the
      others by the base's at its price, which a base stage counts at 1 when it has none. */
  lemma KeepsByHoldings(val: Valuation, pair: Pair)
    ensures var base, own := BaseToken(pair, val.asset), OwnToken(pair, val.asset);
            var price := PriceAt(val.prices, base.address);
            val.Keeps(val.ValueOf(pair)) <==>
            match val.category
            case Stable => IsWorthLimit(val, pair, own, None)
            case Base => IsWorthLimit(val, pair, base, price)
            case Simple => price !in {None, Some(0.0)} && IsWorthLimit(val, pair, base, price)
  {
    var base, own := BaseToken(pair, val.asset), OwnToken(pair, val.asset);
    WorthInTokens(val, pair, own, None);
    WorthInTokens(val, pair, base, PriceAt(val.prices, base.address));
    hide Amount, IsWorthLimit, BaseToken, OwnToken;
  }

  /** If the stage retains the pair and has a price for its base, the price the pair would give
      on its own lies between `low` and `high`, by the pool's raw holdings. */
  ghost predicate SpotWithin(val: Valuation, pair: Pair, low: real, high: real) {
    var base, own, r := BaseToken(pair, val.asset), OwnToken(pair, val.asset), val.reserves(pair.address);
    var asset := Holding(own, r) * UnitsOf(base);
    val.Keeps(val.ValueOf(pair)) && PaidFor(val, base.address).Some? ==>
      low * asset <= Holding(base, r) * UnitsOf(own) * PaidFor(val, base.address).value <= high * asset
  }

  ghost predicate Between(t: Totals, low: real, high: real) {
    t.unpriced == 0 ==> low * t.liquidity <= t.usd <= high * t.liquidity
  }

  lemma SpotBoundsPair(val: Valuation, pair: Pair, low: real, high: real)
    requires SpotWithin(val, pair, low, high)
    ensures Between(TotalsOfPair(val, pair), low, high)
  {
    var base, own, r := BaseToken(pair, val.asset), OwnToken(pair, val.asset), val.reserves(pair.address);
    AmountInUnits(base, r);
    AmountInUnits(own, r);
    UnitPriceIsPaid(val, base.address);
    hide Valuation.Keeps, Valuation.UnitPrice, PaidFor, Amount, Holding, UnitsOf, BaseToken, OwnToken;
    if val.Keeps(val.ValueOf(pair)) && val.UnitPrice(base.address).Some? {
      SpotBounds(low, high, val.UnitPrice(base.address).value, Amount(base, r), UnitsOf(base), Holding(base, r),
                 Amount(own, r), UnitsOf(own), Holding(own, r));
    } else if !val.Keeps(val.ValueOf(pair)) {
      assert TotalsOfPair(val, pair) == NOTHING;
    }
  }

  lemma SpotBounds(low: real, high: real, price: real, x: real, p: real, h: real, y: real, q: real, k: real)
    requires p > 0.0 && q > 0.0 && h == x * p && k == y * q
    requires low * (k * p) <= h * q * price <= high * (k * p)
    ensures low * y <= x * price <= high * y
  {
    Regroup(x, p, q, price);
    RegroupBound(low, y, p, q);
    RegroupBound(high, y, p, q);
    PositiveProduct(p, q);
    SameOrder(x * price, low * y, h * q * price, low * (k * p), p * q);
    SameOrder(high * y, x * price, high * (k * p), h * q * price, p * q);
  }

  lemma RegroupBound(bound: real, y: real, p: real, q: real)
    ensures bound * ((y * q) * p) == (bound * y) * (p * q)
  {
    Associate(y, q, p);
    Associate(bound, y, p * q);
  }

  lemma BetweenPlus(t: Totals, u: Totals, low: real, high: real)
    requires Between(t, low, high) && Between(u, low, high)
    ensures Between(t.Plus(u), low, high)
  {
    assert low * (t.liquidity + u.liquidity) == low * t.liquidity + low * u.liquidity;
    assert high * (t.liquidity + u.liquidity) == high * t.liquidity + high * u.liquidity;
  }

  lemma {:induction false} TotalsWithin(val: Valuation, pairs: seq<Pair>, low: real, high: real)
    requires PositiveReserves(val.reserves)
    requires forall i :: 0 <= i < |pairs| ==> SpotWithin(val, pairs[i], low, high)
    ensures Between(TotalsOfPairs(val, pairs), low, high)
  {
    hide PositiveReserves, SpotWithin, TotalsOfPair;
    if pairs != [] {
      var init, last := pairs[..|pairs| - 1], pairs[|pairs| - 1];
      TotalsWithin(val, init, low, high);
      SpotBoundsPair(val, last, low, high);
      hide Between;
      BetweenPlus(TotalsOfPairs(val, init), TotalsOfPair(val, last), low, high);
    }
  }

  lemma DivideBounds(low: real, x: real, high: real, factor: real)
    requires factor > 0.0 && low * factor <= x <= high * factor
    ensures x / factor * factor == x && low <= x / factor <= high
  {
  }

  /** A price times its retained liquidity is the value of the retained base reserves, so it
      lies between the least and the greatest spot price of the retained pairs. */
  lemma PriceIsMean(val: Valuation, pairs: seq<Pair>, low: real, high: real)
    requires PositiveReserves(val.reserves)
    requires PairsPrice(val, pairs).Ok? && PairsPrice(val, pairs).value.Some?
    requires forall i :: 0 <= i < |pairs| ==> SpotWithin(val, pairs[i], low, high)
    ensures var price := PairsPrice(val, pairs).value.value;
            && price * TotalsOfPairs(val, pairs).liquidity == TotalsOfPairs(val, pairs).usd
            && low <= price <= high
  {
    hide PositiveReserves, SpotWithin, TotalsOfPairs;
    LiquidityIsPositive(val, pairs);
    TotalsWithin(val, pairs, low, high);
    DivideBounds(low, TotalsOfPairs(val, pairs).usd, high, TotalsOfPairs(val, pairs).liquidity);
  }

  ghost predicate Deep(t: Totals, limit: real) {
    t.unpriced == 0 && t.usd >= t.kept as real * limit
  }

  lemma DeepPlus(t: Totals, u: Totals, limit: real)
    requires Deep(t, limit) && Deep(u, limit)
    ensures Deep(t.Plus(u), limit)
  {
    assert (t.kept + u.kept) as real * limit == t.kept as real * limit + u.kept as real * limit;
  }

  lemma SimplePairIsDeep(val: Valuation, pair: Pair)
    requires val.category.Simple?
    ensures Deep(TotalsOfPair(val, pair), val.config.liquidityLimit)
  {
    hide Valuation.ValueOf;
  }

  lemma {:induction false} SimpleTotalsAreDeep(val: Valuation, pairs: seq<Pair>)
    requires val.category.Simple?
    ensures Deep(TotalsOfPairs(val, pairs), val.config.liquidityLimit)
  {
    hide TotalsOfPair;
    if pairs != [] {
      SimpleTotalsAreDeep(val, pairs[..|pairs| - 1]);
      SimplePairIsDeep(val, pairs[|pairs| - 1]);
      hide Deep;
      DeepPlus(TotalsOfPairs(val, pairs[..|pairs| - 1]), TotalsOfPair(val, pairs[|pairs| - 1]),
               val.config.liquidityLimit);
    }
  }

  lemma DivideLower(x: real, y: real, total: real)
    requires total > 0.0 && x >= y
    ensures x / total >= y / total
  {
  }

  /** At the simple stage pricing never throws, and the price of `n` retained pairs is at least
      `n` times the limit over their liquidity. */
  lemma SimplePriceIsDeep(val: Valuation, pairs: seq<Pair>)
    requires PositiveReserves(val.reserves) && val.category.Simple?
    ensures PairsPrice(val, pairs).Ok?
    ensures PairsPrice(val, pairs).value.Some? ==>
              var t := TotalsOfPairs(val, pairs);
              t.liquidity > 0.0
                && PairsPrice(val, pairs).value.value >= t.kept as real * val.config.liquidityLimit / t.liquidity
  {
    hide PositiveReserves, TotalsOfPairs;
    SimpleTotalsAreDeep(val, pairs);
    LiquidityIsPositive(val, pairs);
    var t := TotalsOfPairs(val, pairs);
    if t.kept > 0 {
      DivideLower(t.usd, t.kept as real * val.config.liquidityLimit, t.liquidity);
    }
  }

  lemma {:induction false} TotalsWithout(val: Valuation, pairs: seq<Pair>, i: nat)
    requires i < |pairs|
    ensures TotalsOfPairs(val, pairs)
            == TotalsOfPairs(val, pairs[..i] + pairs[i + 1..]).Plus(TotalsOfPair(val, pairs[i]))
  {
    hide TotalsOfPair;
    var rest := pairs[..i] + pairs[i + 1..];
    var init := pairs[..|pairs| - 1];
    if i == |pairs| - 1 {
      assert rest == init;
    } else {
      TotalsWithout(val, init, i);
      assert rest[..|rest| - 1] == init[..i] + init[i + 1..];
    }
  }

  lemma {:induction false} TotalsPermute(val: Valuation, a: seq<Pair>, b: seq<Pair>)
    requires multiset(a) == multiset(b)
    ensures TotalsOfPairs(val, a) == TotalsOfPairs(val, b)
  {
    hide TotalsOfPair;
    if a == [] {
      assert |multiset(b)| == |b| == 0;
    } else {
      var i := MatchLast(a, b);
      TotalsPermute(val, a[..|a| - 1], b[..i] + b[i + 1..]);
      TotalsWithout(val, b, i);
    }
  }

  /** The order in which an asset's pairs are stored does not matter. */
  lemma PairOrderIsIrrelevant(val: Valuation, a: seq<Pair>, b: seq<Pair>)
    requires PositiveReserves(val.reserves) && multiset(a) == multiset(b)
    ensures PairsPrice(val, a) == PairsPrice(val, b)
  {
    TotalsPermute(val, a, b);
  }

  predicate HasAsset(pair: Pair, asset: string) {
    (pair.token0.address == asset) != (pair.token1.address == asset)
  }

  predicate SameTokens(x: Pair, y: Pair) {
    x == y || y == Pair(x.address, x.token1, x.token0)
  }

  lemma {:induction false} TotalsIgnoreTokenOrder(val: Valuation, a: seq<Pair>, b: seq<Pair>)
    requires |a| == |b| && forall i :: 0 <= i < |a| ==> HasAsset(a[i], val.asset) && SameTokens(a[i], b[i])
    ensures TotalsOfPairs(val, a) == TotalsOfPairs(val, b)
  {
    if a != [] {
      TotalsIgnoreTokenOrder(val, a[..|a| - 1], b[..|b| - 1]);
    }
  }

  /** The same token, with other decimals and its raw holding rescaled to match. */
  predicate Rescaled(x: Token, rx: Reserves, y: Token, ry: Reserves) {
    x.address == y.address && Holding(x, rx) * UnitsOf(y) == Holding(y, ry) * UnitsOf(x)
  }

  lemma RescaledAmount(x: Token, rx: Reserves, y: Token, ry: Reserves)
    requires Rescaled(x, rx, y, ry)
    ensures Amount(x, rx) == Amount(y, ry)
  {
    AmountInUnits(x, rx);
    AmountInUnits(y, ry);
    hide Amount, Holding, UnitsOf;
    CrossMultiply(Amount(x, rx), UnitsOf(x), Holding(x, rx), 1.0, Amount(y, ry), UnitsOf(y), Holding(y, ry), 1.0);
  }

  predicate RescaledPair(val: Valuation, x: Pair, other: Valuation, y: Pair) {
    Rescaled(x.token0, val.reserves(x.address), y.token0, other.reserves(y.address))
      && Rescaled(x.token1, val.reserves(x.address), y.token1, other.reserves(y.address))
  }

  lemma {:induction false} TotalsIgnoreUnits(val: Valuation, other: Valuation, a: seq<Pair>, b: seq<Pair>)
    requires other == val.(reserves := other.reserves)
    requires |a| == |b| && forall i :: 0 <= i < |a| ==> RescaledPair(val, a[i], other, b[i])
    ensures TotalsOfPairs(val, a) == TotalsOfPairs(other, b)
  {
    hide RescaledPair, TotalsOfPair, Totals.Plus;
    if a != [] {
      var k := |a| - 1;
      TotalsIgnoreUnits(val, other, a[..k], b[..k]);
      PairIgnoresUnits(val, other, a[k], b[k]);
    }
  }

  lemma PairIgnoresUnits(val: Valuation, other: Valuation, x: Pair, y: Pair)
    requires other == val.(reserves := other.reserves) && RescaledPair(val, x, other, y)
    ensures TotalsOfPair(val, x) == TotalsOfPair(other, y)
  {
    var rx, ry := val.reserves(x.address), other.reserves(y.address);
    RescaledAmount(x.token0, rx, y.token0, ry);
    RescaledAmount(x.token1, rx, y.token1, ry);
    hide Amount, Holding, UnitsOf;
    assert val.ValueOf(x) == other.ValueOf(y);
    SameRules(val, other, val.ValueOf(x));
    hide Valuation.ValueOf, Valuation.Keeps, TotalsOfValue, Rescaled;
  }

  lemma SameRules(val: Valuation, other: Valuation, v: ReserveValue)
    requires other == val.(reserves := other.reserves)
    ensures val.Keeps(v) == other.Keeps(v) && TotalsOfValue(val, v) == TotalsOfValue(other, v)
  {
  }

  /** Nor do the decimals a token is declared with, once its raw holding is counted in them. */
  lemma UnitsAreIrrelevant(val: Valuation, other: Valuation, a: seq<Pair>, b: seq<Pair>)
    requires PositiveReserves(val.reserves) && PositiveReserves(other.reserves)
    requires other == val.(reserves := other.reserves)
    requires |a| == |b| && forall i :: 0 <= i < |a| ==> RescaledPair(val, a[i], other, b[i])
    ensures PairsPrice(val, a) == PairsPrice(other, b)
  {
    TotalsIgnoreUnits(val, other, a, b);
  }

  /** Nor does the order of the two tokens inside a pair, as long as exactly one is the asset. */
  lemma TokenOrderIsIrrelevant(val: Valuation, a: seq<Pair>, b: seq<Pair>)
    requires PositiveReserves(val.reserves)
    requires |a| == |b| && forall i :: 0 <= i < |a| ==> HasAsset(a[i], val.asset) && SameTokens(a[i], b[i])
    ensures PairsPrice(val, a) == PairsPrice(val, b)
  {
    TotalsIgnoreTokenOrder(val, a, b);
  }
}
