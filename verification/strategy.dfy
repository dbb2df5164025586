/** The long/short strategy (strategy.py): keep the BTC long's margin at a
    target multiple of the shorts' margin, rebalancing both legs when the
    ratio drifts. The providers' answers (positions, account summary, prices,
    position details), the risk manager's answers and each order's outcome
    are inputs. */
module Strategy {
  import opened Util
  import opened OrderExecutor
  import opened PositionProvider
  import opened PerformanceMonitor

  /** The constructor's parameters, defaults 2.0, 0.05 and 0.10. */
  datatype StrategyParams = StrategyParams(
    ratioTarget: real,
    reservePercent: real,
    rebalanceThreshold: real,
    shorts: seq<string>)

  const DefaultShorts: seq<string> := ["ZK", "STRK"]

  /** The constructor: a missing shorts list becomes ["ZK", "STRK"], an empty
      one is kept. */
  function NewParams(ratioTarget: real, reservePercent: real, rebalanceThreshold: real,
                     shorts: Option<seq<string>>): (p: StrategyParams)
    ensures shorts.None? ==> p.shorts == DefaultShorts
    ensures shorts.Some? ==> p.shorts == shorts.value
    ensures p.ratioTarget == ratioTarget && p.reservePercent == reservePercent
            && p.rebalanceThreshold == rebalanceThreshold
  {
    StrategyParams(ratioTarget, reservePercent, rebalanceThreshold, shorts.GetOr(DefaultShorts))
  }

  /** The ratio reported when the shorts hold no margin. */
  const NoShortsRatio: real := 999.0

  /** What the providers said when the portfolio was read. A missing summary
      is the `{}` returned when reading it fails. */
  datatype Snapshot = Snapshot(
    positions: map<string, real>,
    summary: Option<AccountSummary>,
    prices: map<string, real>,
    details: seq<PositionInfo>)

  datatype PortfolioState = PortfolioState(
    nav: real,
    btcPosition: real,
    shortsPositions: map<string, real>,
    btcValueUsd: real,
    shortsValueUsd: real,
    btcMargin: real,
    shortsMargin: real,
    positionRatio: real,
    marginUsagePercent: real,
    availableBalance: real)

  /** The USD value of the listed shorts, each symbol once: |size| x price. */
  function ShortsValue(symbols: seq<string>, positions: map<string, real>, prices: map<string, real>): real
  {
    if |symbols| == 0 then 0.0
    else ShortsValue(symbols[..|symbols| - 1], positions, prices)
         + Notional(Abs(GetReal(positions, symbols[|symbols| - 1], 0.0)), GetReal(prices, symbols[|symbols| - 1], 0.0))
  }

  /** With no negative price the shorts' value is never negative, and a symbol
      without a position contributes nothing. */
  lemma {:induction false} ShortsValueNonNegative(symbols: seq<string>, positions: map<string, real>, prices: map<string, real>)
    requires forall s :: s in prices ==> prices[s] >= 0.0
    ensures ShortsValue(symbols, positions, prices) >= 0.0
  {
    if |symbols| > 0 {
      ShortsValueNonNegative(symbols[..|symbols| - 1], positions, prices);
      var s := symbols[|symbols| - 1];
      MulNonNegative(Abs(GetReal(positions, s, 0.0)), GetReal(prices, s, 0.0));
    }
  }

  /** The margin of one detail credited to (BTC, shorts): BTC first, else a
      listed short, else nothing. */
  function MarginShare(p: PositionInfo, shorts: seq<string>): (real, real)
  {
    if p.symbol == Core then (p.marginUsed, 0.0)
    else if p.symbol in shorts then (0.0, p.marginUsed)
    else (0.0, 0.0)
  }

  /** The loop over `get_position_details()` summing BTC and shorts margin. */
  function Margins(details: seq<PositionInfo>, shorts: seq<string>): (real, real)
  {
    if |details| == 0 then (0.0, 0.0)
    else
      var m := Margins(details[..|details| - 1], shorts);
      var s := MarginShare(details[|details| - 1], shorts);
      (m.0 + s.0, m.1 + s.1)
  }

  /** The margin sums split over a concatenation: neither the order of the
      details nor how they are grouped matters. */
  lemma {:induction false} MarginsConcat(a: seq<PositionInfo>, b: seq<PositionInfo>, shorts: seq<string>)
    ensures Margins(a + b, shorts).0 == Margins(a, shorts).0 + Margins(b, shorts).0
    ensures Margins(a + b, shorts).1 == Margins(a, shorts).1 + Margins(b, shorts).1
  {
    if |b| == 0 {
      assert a + b == a;
    } else {
      MarginsConcat(a, b[..|b| - 1], shorts);
      assert (a + b)[..|a + b| - 1] == a + b[..|b| - 1];
    }
  }

  /** A detail for a coin that is neither BTC nor a listed short changes
      neither sum, wherever it appears. */
  lemma UnlistedCoinIgnored(a: seq<PositionInfo>, p: PositionInfo, b: seq<PositionInfo>, shorts: seq<string>)
    requires p.symbol != Core && p.symbol !in shorts
    ensures Margins(a + [p] + b, shorts) == Margins(a + b, shorts)
  {
    MarginsConcat(a + [p], b, shorts);
    MarginsConcat(a, [p], shorts);
    MarginsConcat(a, b, shorts);
    assert [p][..0] == [];
  }

  /** With no negative margin, both sums are non-negative. */
  lemma {:induction false} MarginsNonNegative(details: seq<PositionInfo>, shorts: seq<string>)
    requires forall i :: 0 <= i < |details| ==> details[i].marginUsed >= 0.0
    ensures Margins(details, shorts).0 >= 0.0 && Margins(details, shorts).1 >= 0.0
  {
    if |details| > 0 {
      MarginsNonNegative(details[..|details| - 1], shorts);
    }
  }

  /** BTC margin over shorts margin, 999.0 when the shorts hold none. */
  function PositionRatio(btcMargin: real, shortsMargin: real): (r: real)
    ensures shortsMargin > 0.0 ==> r * shortsMargin == btcMargin
    ensures shortsMargin <= 0.0 ==> r == NoShortsRatio
  {
    if shortsMargin > 0.0 then DivMul(btcMargin, shortsMargin); btcMargin / shortsMargin else NoShortsRatio
  }

  /** Margin used as a percentage of NAV, 0.0 when NAV is not positive. */
  function MarginUsagePercent(used: real, nav: real): (r: real)
    ensures nav > 0.0 ==> r * nav == used * 100.0
    ensures nav <= 0.0 ==> r == 0.0
  {
    if nav > 0.0 then Percent(used, nav); used / nav * 100.0 else 0.0
  }

  /** `total_margin_used` of the summary, 0.0 when it is missing. */
  function MarginUsed(snap: Snapshot): real
  {
    if snap.summary.Some? then snap.summary.value.totalMarginUsed else 0.0
  }

  /** Python's `get_portfolio_state`. The ratio is taken on margin, not on
      position value. */
  function GetPortfolioState(p: StrategyParams, snap: Snapshot): (pf: PortfolioState)
    ensures pf.nav == (if snap.summary.Some? then snap.summary.value.accountValue else 0.0)
    ensures pf.shortsPositions.Keys == set s | s in p.shorts
    ensures forall s :: s in pf.shortsPositions ==> pf.shortsPositions[s] == GetReal(snap.positions, s, 0.0)
    ensures pf.btcPosition == GetReal(snap.positions, Core, 0.0)
    ensures pf.btcValueUsd == Notional(pf.btcPosition, GetReal(snap.prices, Core, 0.0))
    ensures pf.shortsValueUsd == ShortsValue(Distinct(p.shorts), snap.positions, snap.prices)
    ensures (pf.btcMargin, pf.shortsMargin) == Margins(snap.details, p.shorts)
    ensures pf.positionRatio == PositionRatio(pf.btcMargin, pf.shortsMargin)
    ensures pf.marginUsagePercent == MarginUsagePercent(MarginUsed(snap), pf.nav)
    ensures pf.availableBalance == pf.nav - MarginUsed(snap)
  {
    var btcPosition := GetReal(snap.positions, Core, 0.0);
    var margins := Margins(snap.details, p.shorts);
    var nav := if snap.summary.Some? then snap.summary.value.accountValue else 0.0;
    var marginUsed := MarginUsed(snap);
    var ratio := PositionRatio(margins.0, margins.1);
    var usage := MarginUsagePercent(marginUsed, nav);
    PortfolioState(
      nav,
      btcPosition,
      map s | s in p.shorts :: GetReal(snap.positions, s, 0.0),
      Notional(btcPosition, GetReal(snap.prices, Core, 0.0)),
      ShortsValue(Distinct(p.shorts), snap.positions, snap.prices),
      margins.0,
      margins.1,
      ratio,
      usage,
      nav - marginUsed)
  }

  // ---------------------------------------------------------------------
  // The rebalance decision.

  /** The `reason` text: empty, "Ratio too high", "Ratio too low", or the
      "Force rebalance requested" the trader writes over it. */
  datatype Reason = NoReason | RatioTooHigh | RatioTooLow | Forced

  datatype RebalanceDecision = RebalanceDecision(
    shouldRebalance: bool,
    btcTargetUsd: real,
    shortsTargetUsd: real,
    btcCurrentUsd: real,
    shortsCurrentUsd: real,
    currentRatio: real,
    deviationPercent: real,
    reason: Reason)

  /** Python's `calculate_rebalance_decision`; None when `ratio_target + 1`
      is zero and the division raises. */
  function CalculateRebalanceDecision(p: StrategyParams, pf: PortfolioState): (r: Option<RebalanceDecision>)
    ensures r.None? <==> p.ratioTarget + 1.0 == 0.0
    ensures r.Some? ==> var d := r.value;
            && (d.btcTargetUsd, d.shortsTargetUsd) == Targets(Tradable(pf.nav, p.reservePercent), p.ratioTarget)
            && d.btcCurrentUsd == pf.btcValueUsd && d.shortsCurrentUsd == pf.shortsValueUsd
            && d.currentRatio == pf.positionRatio
            && d.deviationPercent == Deviation(pf.positionRatio, p.ratioTarget)
    ensures r.Some? ==> var d := r.value;
            && (d.shouldRebalance <==> d.deviationPercent > p.rebalanceThreshold)
            && (d.reason == NoReason <==> !d.shouldRebalance)
            && (d.reason == RatioTooHigh <==> d.shouldRebalance && pf.positionRatio > p.ratioTarget)
            && d.reason != Forced
  {
    if p.ratioTarget + 1.0 == 0.0 then None
    else
      var targets := Targets(Tradable(pf.nav, p.reservePercent), p.ratioTarget);
      var deviation := Deviation(pf.positionRatio, p.ratioTarget);
      var should := deviation > p.rebalanceThreshold;
      var reason := if !should then NoReason
                    else if pf.positionRatio > p.ratioTarget then RatioTooHigh
                    else RatioTooLow;
      Some(RebalanceDecision(should, targets.0, targets.1, pf.btcValueUsd, pf.shortsValueUsd,
                             pf.positionRatio, deviation, reason))
  }

  /** `available_for_trading`: NAV less the reserve fraction. */
  function Tradable(nav: real, reservePercent: real): real
  {
    Notional(nav, 1.0 - reservePercent)
  }

  /** The BTC and shorts targets: `total` split in the ratio `ratio : 1`. */
  function Targets(total: real, ratio: real): (t: (real, real))
    requires ratio + 1.0 != 0.0
    ensures t.0 + t.1 == total
    ensures t.0 == ratio * t.1
  {
    TargetsSplit(total, ratio);
    (total * ratio / (ratio + 1.0), total * 1.0 / (ratio + 1.0))
  }

  /** `deviation_percent`: the relative distance of the ratio from the
      target, 0.0 when the target is not positive. */
  function Deviation(ratio: real, target: real): (r: real)
    ensures r >= 0.0
    ensures target > 0.0 ==> r * target == Abs(ratio - target)
    ensures target <= 0.0 ==> r == 0.0
    ensures target > 0.0 && ratio == target ==> r == 0.0
  {
    if target > 0.0 then
      DivMul(Abs(ratio - target), target);
      DivNonNegative(Abs(ratio - target), target);
      Abs(ratio - target) / target
    else 0.0
  }

  /** The two targets split `total` in the ratio `ratio : 1`. */
  lemma TargetsSplit(total: real, ratio: real)
    requires ratio + 1.0 != 0.0
    ensures total * ratio / (ratio + 1.0) + total * 1.0 / (ratio + 1.0) == total
    ensures total * ratio / (ratio + 1.0) == ratio * (total * 1.0 / (ratio + 1.0))
  {
    var k := ratio + 1.0;
    var a := total * ratio / k;
    var b := total * 1.0 / k;
    DivMul(total * ratio, k);
    DivMul(total * 1.0, k);
    assert (a + b) * k == total * k;
    DivUnique(a + b, total, k);
    assert (ratio * b) * k == ratio * (b * k);
    DivUnique(a, ratio * b, k);
  }

  /** A portfolio at the target ratio is left alone by any non-negative
      threshold. */
  lemma OnTargetNoRebalance(p: StrategyParams, pf: PortfolioState)
    requires p.ratioTarget > 0.0 && p.rebalanceThreshold >= 0.0
    requires pf.positionRatio == p.ratioTarget
    ensures CalculateRebalanceDecision(p, pf).Some?
    ensures !CalculateRebalanceDecision(p, pf).value.shouldRebalance
    ensures CalculateRebalanceDecision(p, pf).value.reason == NoReason
  {
  }

  /** With the default parameters, shorts holding no margin always trigger a
      rebalance, reported as a ratio too high. */
  lemma NoShortsMarginTriggersRebalance(pf: PortfolioState)
    requires pf.positionRatio == NoShortsRatio
    ensures var d := CalculateRebalanceDecision(NewParams(2.0, 0.05, 0.10, None), pf);
            d.Some? && d.value.shouldRebalance && d.value.reason == RatioTooHigh
  {
    var d := CalculateRebalanceDecision(NewParams(2.0, 0.05, 0.10, None), pf);
    assert d.value.deviationPercent * 2.0 == 997.0;
  }

  // ---------------------------------------------------------------------
  // Executing a rebalance.

  /** The USD gap below which a leg is left alone, and the per-symbol gap
      below which a short is left alone. */
  const LegThreshold: real := 5.0
  const SymbolThreshold: real := 2.0

  /** An order handed to the order executor's `place_market_order`. */
  datatype OrderRequest = OrderRequest(symbol: string, isBuy: bool, size: real, price: real)

  /** The BTC leg: nothing to do, no usable price, or one order. */
  datatype BtcStep = BtcSkip | BtcNoPrice | BtcOrder(req: OrderRequest)

  function PlanBtc(d: RebalanceDecision, prices: map<string, real>): (r: BtcStep)
    ensures r.BtcSkip? <==> Abs(d.btcTargetUsd - d.btcCurrentUsd) <= LegThreshold
    ensures r.BtcNoPrice? <==> Abs(d.btcTargetUsd - d.btcCurrentUsd) > LegThreshold && GetReal(prices, Core, 0.0) <= 0.0
    ensures r.BtcOrder? ==> var o := r.req;
            && o.symbol == Core && o.price == GetReal(prices, Core, 0.0) && o.price > 0.0
            && Notional(o.size, o.price) == Abs(d.btcTargetUsd - d.btcCurrentUsd)
            && (o.isBuy <==> d.btcTargetUsd > d.btcCurrentUsd)
  {
    var diff := d.btcTargetUsd - d.btcCurrentUsd;
    if Abs(diff) <= LegThreshold then BtcSkip
    else
      var price := GetReal(prices, Core, 0.0);
      if price <= 0.0 then BtcNoPrice
      else
        var sizeDiff := Units(diff, price);
        BtcOrder(OrderRequest(Core, sizeDiff > 0.0, Abs(sizeDiff), price))
  }

  /** The order for one short, given the per-symbol target: none when the
      price is exactly zero or the gap is at most $2; a sell grows the short,
      a buy shrinks it. */
  function ShortOrder(symbol: string, perSymbol: real, current: map<string, real>, prices: map<string, real>)
    : (r: Option<OrderRequest>)
    ensures GetReal(prices, symbol, 0.0) == 0.0 ==> r.None?
    ensures r.Some? ==> var o := r.value;
            var gap := perSymbol - Notional(Abs(GetReal(current, symbol, 0.0)), o.price);
            && o.symbol == symbol && o.price == GetReal(prices, symbol, 0.0) && o.price != 0.0
            && Abs(gap) > SymbolThreshold
            && Notional(o.size, o.price) == Abs(gap)
            && (o.isBuy <==> gap <= 0.0)
    ensures GetReal(prices, symbol, 0.0) != 0.0 && r.None? ==>
              Abs(perSymbol - Notional(Abs(GetReal(current, symbol, 0.0)), GetReal(prices, symbol, 0.0))) <= SymbolThreshold
  {
    var price := GetReal(prices, symbol, 0.0);
    if price == 0.0 then None
    else
      var gap := perSymbol - Notional(Abs(GetReal(current, symbol, 0.0)), price);
      if Abs(gap) > SymbolThreshold then Some(OrderRequest(symbol, !(gap > 0.0), Units(Abs(gap), price), price))
      else None
  }

  /** The orders of the shorts loop, in list order (duplicates included):
      every short that calls for an order gets it, and nothing else is sent
      (`ShortOrdersConcat` states the order). */
  function ShortOrders(symbols: seq<string>, perSymbol: real, current: map<string, real>, prices: map<string, real>)
    : (r: seq<OrderRequest>)
    ensures |r| <= |symbols|
    ensures forall o :: o in r ==> o.symbol in symbols && ShortOrder(o.symbol, perSymbol, current, prices) == Some(o)
    ensures forall i :: 0 <= i < |symbols| && ShortOrder(symbols[i], perSymbol, current, prices).Some? ==>
              ShortOrder(symbols[i], perSymbol, current, prices).value in r
    ensures (forall i :: 0 <= i < |symbols| ==> ShortOrder(symbols[i], perSymbol, current, prices).Some?) ==>
              |r| == |symbols| && forall i :: 0 <= i < |symbols| ==> r[i] == ShortOrder(symbols[i], perSymbol, current, prices).value
  {
    var r := Chosen(s => ShortOrder(s, perSymbol, current, prices), symbols);
    assert forall o :: o in r ==> exists i :: 0 <= i < |symbols| && ShortOrder(symbols[i], perSymbol, current, prices) == Some(o);
    r
  }

  /** The shorts leg: no orders when the gap is at most $5; None when the gap
      is larger and the empty shorts list makes the per-symbol division raise. */
  function PlanShorts(p: StrategyParams, d: RebalanceDecision, current: map<string, real>, prices: map<string, real>)
    : (r: Option<seq<OrderRequest>>)
    ensures r.None? <==> Abs(d.shortsTargetUsd - d.shortsCurrentUsd) > LegThreshold && |p.shorts| == 0
    ensures Abs(d.shortsTargetUsd - d.shortsCurrentUsd) <= LegThreshold ==> r == Some([])
    ensures Abs(d.shortsTargetUsd - d.shortsCurrentUsd) > LegThreshold && |p.shorts| > 0 ==>
              r == Some(ShortOrders(p.shorts, d.shortsTargetUsd / |p.shorts| as real, current, prices))
  {
    if Abs(d.shortsTargetUsd - d.shortsCurrentUsd) <= LegThreshold then Some([])
    else if |p.shorts| == 0 then None
    else Some(ShortOrders(p.shorts, d.shortsTargetUsd / |p.shorts| as real, current, prices))
  }

  /** The number of orders, among `reqs`, that the executor reports successful. */
  function Successes(reqs: seq<OrderRequest>, place: OrderRequest -> bool): (n: nat)
    ensures n <= |reqs|
    ensures n == |reqs| <==> forall i :: 0 <= i < |reqs| ==> place(reqs[i])
  {
    if |reqs| == 0 then 0
    else Successes(reqs[..|reqs| - 1], place) + (if place(reqs[|reqs| - 1]) then 1 else 0)
  }

  /** How `execute_rebalance` ended: a return value, or an exception. */
  datatype Outcome = Returned(value: bool) | Threw

  /** The orders sent, and the monitor afterwards. */
  datatype RebalanceRun = RebalanceRun(outcome: Outcome, orders: seq<OrderRequest>, monitor: Monitor)

  /** Each successful order counts once on the monitor. */
  function TrackOrders(m: Monitor, reqs: seq<OrderRequest>, place: OrderRequest -> bool): (r: Monitor)
    ensures r.ordersPlaced == m.ordersPlaced + Successes(reqs, place)
    ensures r == m.(ordersPlaced := r.ordersPlaced)
  {
    if |reqs| == 0 then m
    else
      var before := TrackOrders(m, reqs[..|reqs| - 1], place);
      if place(reqs[|reqs| - 1]) then OrderPlaced(before) else before
  }

  /** Python's `execute_rebalance`: the BTC leg, then the shorts leg; a
      missing BTC price fails that leg and the shorts leg still runs. `place`
      is the executor's answer to each order. */
  function ExecuteRebalance(p: StrategyParams, d: RebalanceDecision, pf: PortfolioState,
                            prices: map<string, real>, m: Monitor, place: OrderRequest -> bool): (r: RebalanceRun)
    ensures !d.shouldRebalance ==> r == RebalanceRun(Returned(true), [], m)
    ensures r.outcome.Threw? <==> d.shouldRebalance && PlanShorts(p, d, pf.shortsPositions, prices).None?
    ensures r.monitor.ordersPlaced == m.ordersPlaced + Successes(r.orders, place)
    ensures d.shouldRebalance && r.outcome == Returned(true) ==>
              (forall i :: 0 <= i < |r.orders| ==> place(r.orders[i]))
              && r.monitor.rebalancesExecuted == m.rebalancesExecuted + 1
    ensures d.shouldRebalance && r.outcome.Returned? ==>
              (r.outcome.value <==> !PlanBtc(d, prices).BtcNoPrice? && Successes(r.orders, place) == |r.orders|)
    ensures r.outcome != Returned(true) ==> r.monitor.rebalancesExecuted == m.rebalancesExecuted
    ensures d.shouldRebalance && PlanShorts(p, d, pf.shortsPositions, prices).Some? ==>
              r.orders == BtcOrders(PlanBtc(d, prices)) + PlanShorts(p, d, pf.shortsPositions, prices).value
    ensures r.outcome.Threw? ==> r.orders == BtcOrders(PlanBtc(d, prices))
  {
    if !d.shouldRebalance then RebalanceRun(Returned(true), [], m)
    else
      var btc := PlanBtc(d, prices);
      var btcOrders := BtcOrders(btc);
      match PlanShorts(p, d, pf.shortsPositions, prices)
      case None => RebalanceRun(Threw, btcOrders, TrackOrders(m, btcOrders, place))
      case Some(shortOrders) =>
        var orders := btcOrders + shortOrders;
        var m1 := TrackOrders(m, orders, place);
        var success := !btc.BtcNoPrice? && Successes(orders, place) == |orders|;
        RebalanceRun(Returned(success), orders, if success then RebalanceExecuted(m1) else m1)
  }

  /** The orders of the BTC leg. */
  function BtcOrders(b: BtcStep): (r: seq<OrderRequest>)
    ensures |r| <= 1 && (r != [] <==> b.BtcOrder?)
  {
    if b.BtcOrder? then [b.req] else []
  }

  /** The shorts plan of a list is the plan of its first part followed by the
      plan of the rest: orders go out in the order of the shorts list. */
  lemma ShortOrdersConcat(a: seq<string>, b: seq<string>, perSymbol: real,
                           current: map<string, real>, prices: map<string, real>)
    ensures ShortOrders(a + b, perSymbol, current, prices)
            == ShortOrders(a, perSymbol, current, prices) + ShortOrders(b, perSymbol, current, prices)
  {
    ChosenConcat(s => ShortOrder(s, perSymbol, current, prices), a, b);
  }

  /** The shorts leg reads only the shorts' prices: changing the BTC price
      alone changes none of its orders. */
  lemma ShortOrdersIgnoreOtherPrices(symbols: seq<string>, perSymbol: real, current: map<string, real>,
                                      prices: map<string, real>, prices2: map<string, real>)
    requires forall s :: s in symbols ==> GetReal(prices, s, 0.0) == GetReal(prices2, s, 0.0)
    ensures ShortOrders(symbols, perSymbol, current, prices) == ShortOrders(symbols, perSymbol, current, prices2)
  {
    forall i | 0 <= i < |symbols|
      ensures ShortOrder(symbols[i], perSymbol, current, prices) == ShortOrder(symbols[i], perSymbol, current, prices2)
    {
      assert symbols[i] in symbols;
    }
    ChosenAgree(s => ShortOrder(s, perSymbol, current, prices), s => ShortOrder(s, perSymbol, current, prices2), symbols);
  }

  /** With the BTC price missing, the execution still sends every short
      order and reports failure; nothing counts as a rebalance. */
  lemma MissingBtcPriceKeepsShortsLeg(p: StrategyParams, d: RebalanceDecision, pf: PortfolioState,
                                      prices: map<string, real>, m: Monitor, place: OrderRequest -> bool)
    requires d.shouldRebalance && PlanBtc(d, prices).BtcNoPrice?
    requires PlanShorts(p, d, pf.shortsPositions, prices).Some?
    ensures var r := ExecuteRebalance(p, d, pf, prices, m, place);
            && r.outcome == Returned(false)
            && r.orders == PlanShorts(p, d, pf.shortsPositions, prices).value
            && r.monitor.rebalancesExecuted == m.rebalancesExecuted
  {
    assert [] + PlanShorts(p, d, pf.shortsPositions, prices).value == PlanShorts(p, d, pf.shortsPositions, prices).value;
  }

  /** A concrete run: default parameters, a $10 gap on each leg, no BTC
      price and a price of 1 for each short. The call returns False after
      sending a $5 sell for each of the two shorts. */
  lemma MissingBtcPriceExample()
    ensures var place := (o: OrderRequest) => true;
            var r := ExecuteRebalance(ExampleParams, ExampleDecision, ExamplePortfolio, ExamplePrices, Reset(0.0), place);
            && r.outcome == Returned(false)
            && r.orders == [OrderRequest("ZK", false, 5.0, 1.0), OrderRequest("STRK", false, 5.0, 1.0)]
  {
    var place := (o: OrderRequest) => true;
    ExampleHasNoBtcPrice();
    ExampleShortsPlan();
    MissingBtcPriceKeepsShortsLeg(ExampleParams, ExampleDecision, ExamplePortfolio, ExamplePrices, Reset(0.0), place);
  }

  const ExampleParams: StrategyParams := NewParams(2.0, 0.05, 0.10, None)
  const ExampleDecision: RebalanceDecision := RebalanceDecision(true, 10.0, 10.0, 0.0, 0.0, 0.0, 1.0, RatioTooLow)
  const ExamplePortfolio: PortfolioState :=
    PortfolioState(30.0, 0.0, map["ZK" := 0.0, "STRK" := 0.0], 0.0, 0.0, 0.0, 0.0, NoShortsRatio, 0.0, 30.0)
  const ExamplePrices: map<string, real> := map["ZK" := 1.0, "STRK" := 1.0]

  lemma ExampleHasNoBtcPrice()
    ensures ExampleDecision.shouldRebalance && PlanBtc(ExampleDecision, ExamplePrices).BtcNoPrice?
  {
    assert Core !in ExamplePrices;
  }

  lemma ExampleShortsPlan()
    ensures PlanShorts(ExampleParams, ExampleDecision, ExamplePortfolio.shortsPositions, ExamplePrices)
            == Some([OrderRequest("ZK", false, 5.0, 1.0), OrderRequest("STRK", false, 5.0, 1.0)])
  {
    assert ExampleParams.shorts == ["ZK", "STRK"];
    assert ExampleDecision.shortsTargetUsd / 2 as real == 5.0;
    ExampleShortOrders();
  }

  lemma ExampleShortOrders()
    ensures ShortOrders(["ZK", "STRK"], 5.0, ExamplePortfolio.shortsPositions, ExamplePrices)
            == [OrderRequest("ZK", false, 5.0, 1.0), OrderRequest("STRK", false, 5.0, 1.0)]
  {
    var pos := ExamplePortfolio.shortsPositions;
    var shorts := ["ZK", "STRK"];
    FlatShortOrder("ZK", pos, ExamplePrices);
    FlatShortOrder("STRK", pos, ExamplePrices);
    assert forall i :: 0 <= i < |shorts| ==>
             ShortOrder(shorts[i], 5.0, pos, ExamplePrices) == Some(OrderRequest(shorts[i], false, 5.0, 1.0));
  }

  /** A short with no position and a price of 1 gets a $5 sell for a $5 target. */
  lemma FlatShortOrder(symbol: string, current: map<string, real>, prices: map<string, real>)
    requires symbol in current && current[symbol] == 0.0 && symbol in prices && prices[symbol] == 1.0
    ensures ShortOrder(symbol, 5.0, current, prices) == Some(OrderRequest(symbol, false, 5.0, 1.0))
  {
    assert Units(5.0, 1.0) * 1.0 == 5.0;
  }

  // ---------------------------------------------------------------------
  // One strategy cycle.

  /** What the risk step said: no risk manager, an exception while checking
      (logged and ignored), or the compliance map and the result that
      `force_leverage_compliance` would give. */
  datatype RiskStep =
    | NoRiskManager
    | RiskRaised
    | RiskChecked(compliance: map<string, bool>, forced: bool)

  /** Some symbol of the compliance map is not compliant. */
  predicate NonCompliant(risk: RiskStep)
  {
    risk.RiskChecked? && exists s :: s in risk.compliance && !risk.compliance[s]
  }

  datatype CycleRun = CycleRun(ok: bool, orders: seq<OrderRequest>, resetForced: bool, monitor: Monitor)

  /** Python's `run_strategy_cycle`: read the portfolio, report its PnL, let a
      non-compliant leverage reset replace the cycle, then decide and (when
      needed) rebalance. Any exception makes the cycle return False.
      `execPrices` is the second price read made inside the rebalance. */
  function RunStrategyCycle(p: StrategyParams, snap: Snapshot, risk: RiskStep, execPrices: map<string, real>,
                            m: Monitor, now: real, place: OrderRequest -> bool): (r: CycleRun)
    ensures var pf := GetPortfolioState(p, snap);
            r.monitor.pnl == TrackPnl(m.pnl, pf.btcValueUsd + pf.shortsValueUsd - pf.nav, 0.0, now)
    ensures r.resetForced <==> NonCompliant(risk)
    ensures NonCompliant(risk) ==> r.ok == risk.forced && r.orders == []
    ensures !NonCompliant(risk) ==>
              var pf := GetPortfolioState(p, snap);
              var dec := CalculateRebalanceDecision(p, pf);
              && (dec.None? ==> !r.ok && r.orders == [])
              && (dec.Some? && !dec.value.shouldRebalance ==> r.ok && r.orders == [])
              && (dec.Some? && dec.value.shouldRebalance ==>
                    var run := ExecuteRebalance(p, dec.value, pf, execPrices, MonitorPnl(m, pf.btcValueUsd + pf.shortsValueUsd - pf.nav, 0.0, now), place);
                    r.orders == run.orders && r.monitor == run.monitor && (r.ok <==> run.outcome == Returned(true)))
  {
    var pf := GetPortfolioState(p, snap);
    var m1 := MonitorPnl(m, pf.btcValueUsd + pf.shortsValueUsd - pf.nav, 0.0, now);
    if NonCompliant(risk) then CycleRun(risk.forced, [], true, m1)
    else
      match CalculateRebalanceDecision(p, pf)
      case None => CycleRun(false, [], false, m1)
      case Some(dec) =>
        if !dec.shouldRebalance then CycleRun(true, [], false, m1)
        else
          var run := ExecuteRebalance(p, dec, pf, execPrices, m1, place);
          CycleRun(run.outcome == Returned(true), run.orders, false, run.monitor)
  }

  /** A cycle that sends orders and succeeds had a decision to rebalance and
      every order it sent went through. */
  lemma SuccessfulCycleOrdersAllFilled(p: StrategyParams, snap: Snapshot, risk: RiskStep, execPrices: map<string, real>,
                                       m: Monitor, now: real, place: OrderRequest -> bool)
    requires RunStrategyCycle(p, snap, risk, execPrices, m, now, place).ok
    ensures var r := RunStrategyCycle(p, snap, risk, execPrices, m, now, place);
            forall i :: 0 <= i < |r.orders| ==> place(r.orders[i])
  {
  }

  /** Python's `close_all_positions` on the strategy: True when nothing is
      open; otherwise True iff the executor closed every open position. */
  function CloseAll(positions: map<string, real>, closeReply: string -> VenueReply): (r: bool)
    ensures r <==> forall s :: s in positions && IsOpen(positions[s]) ==> ClosePosition(closeReply(s)).success
  {
    var open := map s | s in positions && IsOpen(positions[s]) :: positions[s];
    assert forall s :: s in positions && IsOpen(positions[s]) ==> s in open;
    if open == map[] then true
    else
      var results := CloseAllPositions(open, closeReply);
      assert forall s :: s in results <==> s in positions && IsOpen(positions[s]);
      forall s :: s in results ==> results[s].success
  }

  /** The strategy's verdict is the executor's results read together: True
      iff every close the executor reports succeeded, and nothing open goes
      unreported. */
  lemma CloseAllAgreesWithResults(positions: map<string, real>, closeReply: string -> VenueReply)
    ensures var results := CloseAllPositions(positions, closeReply);
            && (CloseAll(positions, closeReply) <==> forall s :: s in results ==> results[s].success)
            && (forall s :: s in positions && IsOpen(positions[s]) ==> s in results)
  {
    var results := CloseAllPositions(positions, closeReply);
    if forall s :: s in results ==> results[s].success {
      forall s | s in positions && IsOpen(positions[s])
        ensures ClosePosition(closeReply(s)).success
      {
        assert s in results;
      }
    }
  }
}
