/** The market-data provider (market_data_provider.py): mid prices and the
    latest funding rate per symbol, with a ten-second cache whose single
    timestamp only a price fetch refreshes. The venue's replies and the clock
    are inputs. */
module MarketData {
  import opened Util
  import opened Json

  /** Seconds the caches stay fresh. */
  const MarketTtl: real := 10.0

  /** `_prices_cache`, `_funding_cache` and their shared `_cache_timestamp`. */
  datatype MarketCache = MarketCache(prices: map<string, real>, funding: map<string, real>, stamp: real)

  /** A freshly constructed provider, and the state `invalidate_cache` leaves. */
  const EmptyMarket: MarketCache := MarketCache(map[], map[], 0.0)

  /** The raw mid prices that mean "no price": the membership test
      `price_raw in ('NOT FOUND', None, '', 0, 0.0)` uses Python equality, under
      which False equals 0. */
  predicate MissingPrice(raw: JsonValue)
  {
    raw == JStr("NOT FOUND") || raw == JNull || raw == JStr("") || raw == JInt(0)
    || raw == JReal(0.0) || raw == JBool(false)
  }

  /** The price of `symbol` in an `all_mids()` reply; None when `float` raises. */
  function PriceOf(mids: map<string, JsonValue>, symbol: string): (r: Option<real>)
    ensures symbol !in mids ==> r == Some(0.0)
    ensures symbol in mids && MissingPrice(mids[symbol]) ==> r == Some(0.0)
    ensures symbol in mids && !MissingPrice(mids[symbol]) ==> r == ToFloat(mids[symbol])
  {
    var raw := Get(mids, symbol, JStr("NOT FOUND"));
    if MissingPrice(raw) then Some(0.0) else ToFloat(raw)
  }

  /** The prices a fetch produces; None when `all_mids()` or a conversion raises. */
  function FetchPrices(mids: Option<map<string, JsonValue>>, symbols: seq<string>): (r: Option<map<string, real>>)
    ensures r.Some? <==> mids.Some? && forall s :: s in symbols ==> PriceOf(mids.value, s).Some?
    ensures r.Some? ==> r.value.Keys == set s | s in symbols
    ensures r.Some? ==> forall s :: s in symbols ==> Some(r.value[s]) == PriceOf(mids.value, s)
  {
    match mids
    case None => None
    case Some(m) =>
      if forall s :: s in symbols ==> PriceOf(m, s).Some? then
        Some(map s | s in symbols :: PriceOf(m, s).value)
      else None
  }

  /** The price cache is served: fresh, non-empty and holding every symbol. */
  predicate PricesServe(c: MarketCache, now: real, symbols: seq<string>)
  {
    now - c.stamp < MarketTtl && c.prices != map[] && forall s :: s in symbols ==> s in c.prices
  }

  /** Python's `get_prices`: the prices returned and the provider's new state. */
  function GetPrices(c: MarketCache, now: real, symbols: seq<string>, mids: Option<map<string, JsonValue>>)
    : (out: (map<string, real>, MarketCache))
    ensures out.0.Keys == set s | s in symbols
    ensures PricesServe(c, now, symbols) ==> out.1 == c && forall s :: s in out.0 ==> out.0[s] == c.prices[s]
    ensures !PricesServe(c, now, symbols) && FetchPrices(mids, symbols).None? ==>
              out.1 == c && forall s :: s in out.0 ==> out.0[s] == 0.0
    ensures !PricesServe(c, now, symbols) && FetchPrices(mids, symbols).Some? ==>
              && (forall s :: s in symbols ==> Some(out.0[s]) == PriceOf(mids.value, s))
              && out.1 == MarketCache(c.prices + out.0, c.funding, now)
  {
    if PricesServe(c, now, symbols) then (map s | s in symbols :: c.prices[s], c)
    else match FetchPrices(mids, symbols)
      case None => (map s | s in symbols :: 0.0, c)
      case Some(p) => (p, c.(prices := c.prices + p, stamp := now))
  }

  /** A fetch merges into the price cache: prices of symbols not asked for
      are kept as they were. */
  lemma FetchKeepsOtherPrices(c: MarketCache, now: real, symbols: seq<string>, mids: Option<map<string, JsonValue>>, t: string)
    requires !PricesServe(c, now, symbols) && t !in symbols && t in c.prices
    ensures var out := GetPrices(c, now, symbols, mids);
            t in out.1.prices && out.1.prices[t] == c.prices[t]
  {
  }

  /** After a successful fetch of a non-empty list, every call within the TTL
      for some of the same symbols is served from the cache with the fetched
      prices, whatever the venue would say then. */
  lemma FetchedPricesServedWithinTtl(c: MarketCache, now: real, symbols: seq<string>, mids: Option<map<string, JsonValue>>,
                                     later: real, again: seq<string>, mids2: Option<map<string, JsonValue>>)
    requires !PricesServe(c, now, symbols) && FetchPrices(mids, symbols).Some?
    requires |symbols| > 0 && (forall s :: s in again ==> s in symbols)
    requires now <= later < now + MarketTtl
    ensures var first := GetPrices(c, now, symbols, mids);
            var second := GetPrices(first.1, later, again, mids2);
            && second.1 == first.1
            && forall s :: s in again ==> second.0[s] == first.0[s]
  {
    var first := GetPrices(c, now, symbols, mids);
    assert symbols[0] in first.1.prices;
  }

  /** The latest funding rate from a `funding_history` reply: the last record's
      `fundingRate` (default 0.0); an empty or failed history, or a record that
      cannot be read, gives 0.0. */
  function FundingOf(history: Option<seq<JsonValue>>): (r: real)
    ensures history.None? || history.value == [] ==> r == 0.0
    ensures (history.Some? && history.value != [] && history.value[|history.value| - 1].JObj?
             && "fundingRate" !in history.value[|history.value| - 1].fields) ==> r == 0.0
    ensures history.Some? && history.value != [] && history.value[|history.value| - 1].JObj? ==>
              var rate := ToFloat(Get(history.value[|history.value| - 1].fields, "fundingRate", JReal(0.0)));
              (rate.Some? ==> r == rate.value) && (rate.None? ==> r == 0.0)
    ensures history.Some? && history.value != [] && !history.value[|history.value| - 1].JObj? ==> r == 0.0
  {
    match history
    case None => 0.0
    case Some(h) =>
      if h == [] then 0.0
      else match h[|h| - 1]
        case JObj(rec) => ToFloat(Get(rec, "fundingRate", JReal(0.0))).GetOr(0.0)
        case _ => 0.0
  }

  /** The funding cache is served: fresh, non-empty and holding every symbol. */
  predicate FundingServes(c: MarketCache, now: real, symbols: seq<string>)
  {
    now - c.stamp < MarketTtl && c.funding != map[] && forall s :: s in symbols ==> s in c.funding
  }

  /** Python's `get_funding_rates`: one history call per symbol, each failure
      confined to its own symbol; the cache is merged but its timestamp is
      left alone. */
  function GetFundingRates(c: MarketCache, now: real, symbols: seq<string>, history: string -> Option<seq<JsonValue>>)
    : (out: (map<string, real>, MarketCache))
    ensures out.0.Keys == set s | s in symbols
    ensures out.1.stamp == c.stamp && out.1.prices == c.prices
    ensures FundingServes(c, now, symbols) ==> out.1 == c && forall s :: s in out.0 ==> out.0[s] == c.funding[s]
    ensures !FundingServes(c, now, symbols) ==>
              && (forall s :: s in symbols ==> out.0[s] == FundingOf(history(s)))
              && out.1.funding == c.funding + out.0
  {
    if FundingServes(c, now, symbols) then (map s | s in symbols :: c.funding[s], c)
    else
      var f := map s | s in symbols :: FundingOf(history(s));
      (f, c.(funding := c.funding + f))
  }

  /** One symbol's failed history call changes no other symbol's rate. */
  lemma FundingFailureIsLocal(c: MarketCache, now: real, symbols: seq<string>,
                              history: string -> Option<seq<JsonValue>>, bad: string, t: string)
    requires !FundingServes(c, now, symbols) && t in symbols && t != bad
    ensures var broken := (s: string) => if s == bad then None else history(s);
            GetFundingRates(c, now, symbols, broken).0[t] == GetFundingRates(c, now, symbols, history).0[t]
  {
  }

  /** `invalidate_cache`. */
  function InvalidateMarket(c: MarketCache): (r: MarketCache)
    ensures r.prices == map[] && r.funding == map[]
  {
    EmptyMarket
  }

  /** After invalidation the next price call fetches, whatever the clock says. */
  lemma InvalidateForcesPriceFetch(c: MarketCache, now: real, symbols: seq<string>, mids: Option<map<string, JsonValue>>)
    ensures !PricesServe(InvalidateMarket(c), now, symbols)
    ensures !FundingServes(InvalidateMarket(c), now, symbols)
  {
  }
}
