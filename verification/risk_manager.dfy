/** The risk manager (risk_manager.py): reads the account's leverages, checks
    them against the configured ones, and when they differ runs the full
    reset protocol: snapshot the portfolio, close every position, set every
    leverage, and reopen. The venue's replies and the prices it quotes are
    inputs; every venue call the protocol makes, and every sleep, is recorded
    in an action trace. */
module RiskManager {
  import opened Util
  import opened Json
  import opened OrderExecutor
  import opened PositionProvider

  // ---------------------------------------------------------------------
  // Configuration.

  /** The `api_delays` read at construction, in seconds. */
  datatype Delays = Delays(orderProcessing: int, leverageUpdate: int, positionCheck: int)

  function GetInt(m: map<string, int>, k: string, default: int): (v: int)
    ensures k in m ==> v == m[k]
    ensures k !in m ==> v == default
  {
    if k in m then m[k] else default
  }

  /** The constructor's delays: 3, 2 and 1 seconds unless configured. */
  function DelaysOf(apiDelays: map<string, int>): (d: Delays)
    ensures d.orderProcessing == GetInt(apiDelays, "order_processing", 3)
    ensures d.leverageUpdate == GetInt(apiDelays, "leverage_update", 2)
    ensures d.positionCheck == GetInt(apiDelays, "position_check", 1)
    ensures apiDelays == map[] ==> d == Delays(3, 2, 1)
  {
    Delays(GetInt(apiDelays, "order_processing", 3), GetInt(apiDelays, "leverage_update", 2),
           GetInt(apiDelays, "position_check", 1))
  }

  /** A venue call made, or a sleep taken, by the protocol. */
  datatype Action =
    | Close(symbol: string)
    | SetLeverage(symbol: string, leverage: int)
    | Open(order: MarketOpen)
    | Wait(seconds: int)

  /** The outcome of one protocol step: its result and the actions it took. */
  datatype StepRun = StepRun(ok: bool, trace: seq<Action>)

  /** A venue reply counts as success iff it is a dict whose `status` is "ok";
      an exception counts as failure. */
  predicate StatusOk(reply: VenueReply)
  {
    reply.Reply? && reply.status == "ok"
  }

  // ---------------------------------------------------------------------
  // Reading and checking leverages.

  /** One pass of `get_current_leverages`' loop: a record with a coin stores
      its parsed leverage; a leverage `float` refuses makes the loop raise. */
  function LeverageRecord(info: map<string, JsonValue>): (r: Option<Option<(string, real)>>)
    ensures !HasCoin(info) ==> r == Some(None)
    ensures HasCoin(info) ==> (r.None? <==> ParseLeverage(Get(info, "leverage", JNull)).None?)
    ensures r.Some? && r.value.Some? ==>
              CoinOf(info) == Some(r.value.value.0) && ParseLeverage(Get(info, "leverage", JNull)) == Some(r.value.value.1)
  {
    if !HasCoin(info) then Some(None)
    else match ParseLeverage(Get(info, "leverage", JNull))
      case None => None
      case Some(l) =>
        match CoinOf(info)
        case Some(c) => Some(Some((c, l)))
        case None => Some(None)
  }

  /** Python's `get_current_leverages`: `{}` when anything raises. */
  function GetCurrentLeverages(state: UserState): (r: map<string, real>)
    ensures PositionInfos(state).None? ==> r == map[]
    ensures PositionInfos(state).Some? && Collect(LeverageRecord, PositionInfos(state).value).None? ==> r == map[]
  {
    match PositionInfos(state)
    case None => map[]
    case Some(infos) => Collect(LeverageRecord, infos).GetOr(map[])
  }

  /** The leverage read for a coin is the one its last record states: the
      object's `value`, else the scalar, else 1.0 when absent or falsy. */
  lemma LeverageOfLastRecord(infos: seq<map<string, JsonValue>>, i: int)
    requires Collect(LeverageRecord, infos).Some?
    requires 0 <= i < |infos| && CoinOf(infos[i]).Some?
    requires forall j :: i < j < |infos| ==> CoinOf(infos[j]) != CoinOf(infos[i])
    ensures CoinOf(infos[i]).value in Collect(LeverageRecord, infos).value
    ensures Some(Collect(LeverageRecord, infos).value[CoinOf(infos[i]).value])
            == ParseLeverage(Get(infos[i], "leverage", JNull))
  {
    assert LeverageRecord(infos[i]).Some?;
    forall j | i < j < |infos| ensures !Stores(LeverageRecord, infos[j], CoinOf(infos[i]).value) {
    }
    CollectLastWins(LeverageRecord, infos, i);
  }

  /** The same fact on the account document: a coin's current leverage is
      the one its last record states. */
  lemma CurrentLeverageOfLastRecord(state: UserState, i: int)
    requires PositionInfos(state).Some? && Collect(LeverageRecord, PositionInfos(state).value).Some?
    requires 0 <= i < |PositionInfos(state).value| && CoinOf(PositionInfos(state).value[i]).Some?
    requires forall j :: i < j < |PositionInfos(state).value| ==>
               CoinOf(PositionInfos(state).value[j]) != CoinOf(PositionInfos(state).value[i])
    ensures var info := PositionInfos(state).value[i];
            && CoinOf(info).value in GetCurrentLeverages(state)
            && Some(GetCurrentLeverages(state)[CoinOf(info).value]) == ParseLeverage(Get(info, "leverage", JNull))
  {
    LeverageOfLastRecord(PositionInfos(state).value, i);
  }

  /** The tolerance of the compliance test. */
  const LeverageTolerance: real := 0.01

  predicate Compliant(current: real, required: int)
  {
    Abs(current - required as real) < LeverageTolerance
  }

  /** Python's `check_leverage_compliance`: BTC against `requiredBtc`, then
      each short against `requiredShorts` (a short named BTC overwrites the
      first entry); a coin with no reading counts as 1x. */
  function CheckLeverageCompliance(lev: map<string, real>, requiredBtc: int, requiredShorts: int,
                                   shorts: seq<string>): (r: map<string, bool>)
    ensures r.Keys == {Core} + set s | s in shorts
    ensures forall s :: s in shorts ==> r[s] == Compliant(GetReal(lev, s, 1.0), requiredShorts)
    ensures Core !in shorts ==> r[Core] == Compliant(GetReal(lev, Core, 1.0), requiredBtc)
  {
    map[Core := Compliant(GetReal(lev, Core, 1.0), requiredBtc)]
    + map s | s in shorts :: Compliant(GetReal(lev, s, 1.0), requiredShorts)
  }

  /** A coin without a leverage reading is compliant iff 1x is required. */
  lemma MissingLeverageCountsAsOne(lev: map<string, real>, requiredBtc: int, requiredShorts: int,
                                   shorts: seq<string>, s: string)
    requires s !in lev && s in shorts
    ensures CheckLeverageCompliance(lev, requiredBtc, requiredShorts, shorts)[s] <==> requiredShorts == 1
  {
    var d := 1.0 - requiredShorts as real;
    if requiredShorts != 1 {
      assert requiredShorts >= 2 || requiredShorts <= 0;
      assert Abs(d) >= 1.0;
    }
  }

  /** No entry of the map is non-compliant (vacuously so for `{}`). */
  predicate AllCompliant(compliance: map<string, bool>)
  {
    forall s :: s in compliance ==> compliance[s]
  }

  // ---------------------------------------------------------------------
  // Step 1: the portfolio snapshot.

  datatype SavedPosition = SavedPosition(size: real, value: real, price: real)

  /** `_save_portfolio_state`'s dict: NAV, the open positions by coin, the
      coins in the order they were first stored, and the two value totals. */
  datatype SavedState = SavedState(
    nav: real,
    positions: map<string, SavedPosition>,
    coins: seq<string>,
    totalBtcValue: real,
    totalShortsValue: real)

  /** The price the snapshot uses: `get_prices(['BTC'] + shorts)` asks only
      for those symbols, so any other coin reads 0.0. `quote` is what a fresh
      market-data provider returns for a symbol (0.0 when it fails). */
  function SnapshotPrice(coin: string, shorts: seq<string>, quote: string -> real): (p: real)
    ensures coin != Core && coin !in shorts ==> p == 0.0
    ensures coin == Core || coin in shorts ==> p == quote(coin)
  {
    if coin == Core || coin in shorts then quote(coin) else 0.0
  }

  /** One pass of the snapshot loop: `float(szi)` is taken before the coin is
      looked at (and may raise); an open position with a coin is stored. */
  function SnapshotRecord(info: map<string, JsonValue>, shorts: seq<string>, quote: string -> real)
    : (r: Option<Option<(string, SavedPosition)>>)
    ensures r.None? <==> Number(info, "szi").None?
    ensures r.Some? && r.value.Some? ==>
              var (c, sp) := r.value.value;
              && CoinOf(info) == Some(c) && Number(info, "szi") == Some(sp.size) && IsOpen(sp.size)
              && sp.price == SnapshotPrice(c, shorts, quote)
              && sp.value == Notional(Abs(sp.size), sp.price)
    ensures r.Some? && r.value.None? ==> CoinOf(info).None? || !IsOpen(Number(info, "szi").value)
  {
    match Number(info, "szi")
    case None => None
    case Some(size) =>
      if HasCoin(info) && IsOpen(size) && CoinOf(info).Some? then
        var c := CoinOf(info).value;
        var p := SnapshotPrice(c, shorts, quote);
        Some(Some((c, SavedPosition(size, Notional(Abs(size), p), p))))
      else Some(None)
  }

  /** The coin a snapshot record stores, if any. */
  function SnapshotCoin(info: map<string, JsonValue>, shorts: seq<string>, quote: string -> real): (r: Option<Option<string>>)
    ensures r.None? <==> SnapshotRecord(info, shorts, quote).None?
    ensures r.Some? && r.value.Some? <==> SnapshotRecord(info, shorts, quote).Some? && SnapshotRecord(info, shorts, quote).value.Some?
    ensures r.Some? && r.value.Some? ==> r.value.value == SnapshotRecord(info, shorts, quote).value.value.0
  {
    match SnapshotRecord(info, shorts, quote)
    case None => None
    case Some(None) => Some(None)
    case Some(Some((c, _))) => Some(Some(c))
  }

  /** The value a stored record adds to (BTC total, shorts total): BTC to the
      first, a listed short to the second, any other coin to neither. */
  function ValueShare(info: map<string, JsonValue>, shorts: seq<string>, quote: string -> real): (real, real)
  {
    match SnapshotRecord(info, shorts, quote)
    case Some(Some((c, sp))) =>
      if c == Core then (sp.value, 0.0) else if c in shorts then (0.0, sp.value) else (0.0, 0.0)
    case _ => (0.0, 0.0)
  }

  /** The positions the snapshot loop stores; None when a record raises. */
  function SnapshotPositions(infos: seq<map<string, JsonValue>>, shorts: seq<string>, quote: string -> real)
    : (r: Option<map<string, SavedPosition>>)
    ensures r.Some? <==> forall i :: 0 <= i < |infos| ==> SnapshotRecord(infos[i], shorts, quote).Some?
  {
    Collect((info: map<string, JsonValue>) => SnapshotRecord(info, shorts, quote), infos)
  }

  /** The coins the snapshot loop stores, in the order it meets them. */
  function SnapshotCoins(infos: seq<map<string, JsonValue>>, shorts: seq<string>, quote: string -> real)
    : (r: Option<seq<string>>)
  {
    CollectSeq((info: map<string, JsonValue>) => SnapshotCoin(info, shorts, quote), infos)
  }

  /** The running totals of the snapshot loop (a coin met twice adds twice). */
  function Totals(infos: seq<map<string, JsonValue>>, shorts: seq<string>, quote: string -> real): (real, real)
  {
    if |infos| == 0 then (0.0, 0.0)
    else
      var t := Totals(infos[..|infos| - 1], shorts, quote);
      var s := ValueShare(infos[|infos| - 1], shorts, quote);
      (t.0 + s.0, t.1 + s.1)
  }

  /** Python's `_save_portfolio_state`; None stands for the `{}` it returns
      when reading the account raises. */
  function SavePortfolioState(state: UserState, shorts: seq<string>, quote: string -> real): (r: Option<SavedState>)
    ensures r.Some? <==> && PositionInfos(state).Some? && MarginSummary(state).Some?
                         && Number(MarginSummary(state).value, "accountValue").Some?
                         && forall i :: 0 <= i < |PositionInfos(state).value| ==>
                                          Number(PositionInfos(state).value[i], "szi").Some?
    ensures r.Some? ==> var infos := PositionInfos(state).value;
            && Some(r.value.nav) == Number(MarginSummary(state).value, "accountValue")
            && SnapshotPositions(infos, shorts, quote) == Some(r.value.positions)
            && (r.value.totalBtcValue, r.value.totalShortsValue) == Totals(infos, shorts, quote)
    ensures r.Some? ==> (forall c :: c in r.value.coins <==> c in r.value.positions)
                        && (forall i, j :: 0 <= i < j < |r.value.coins| ==> r.value.coins[i] != r.value.coins[j])
  {
    match (PositionInfos(state), MarginSummary(state))
    case (Some(infos), Some(ms)) =>
      (match Number(ms, "accountValue")
       case None => None
       case Some(nav) =>
         match (SnapshotPositions(infos, shorts, quote), SnapshotCoins(infos, shorts, quote))
         case (Some(positions), Some(stored)) =>
           SnapshotCoinsAreKeys(infos, shorts, quote);
           var totals := Totals(infos, shorts, quote);
           Some(SavedState(nav, positions, Distinct(stored), totals.0, totals.1))
         case _ => None)
    case _ => None
  }

  /** The coins the snapshot lists are exactly the keys of its positions. */
  lemma SnapshotCoinsAreKeys(infos: seq<map<string, JsonValue>>, shorts: seq<string>, quote: string -> real)
    requires SnapshotPositions(infos, shorts, quote).Some? && SnapshotCoins(infos, shorts, quote).Some?
    ensures forall c :: c in SnapshotCoins(infos, shorts, quote).value <==> c in SnapshotPositions(infos, shorts, quote).value
  {
    var step := (info: map<string, JsonValue>) => SnapshotRecord(info, shorts, quote);
    var coinStep := (info: map<string, JsonValue>) => SnapshotCoin(info, shorts, quote);
    CollectKeys(step, infos);
    forall c ensures c in CollectSeq(coinStep, infos).value <==> StoredBySome(step, infos, c) {
      if c in CollectSeq(coinStep, infos).value {
        var i :| 0 <= i < |infos| && coinStep(infos[i]) == Some(Some(c));
        assert Stores(step, infos[i], c);
      }
      if StoredBySome(step, infos, c) {
        var i :| 0 <= i < |infos| && Stores(step, infos[i], c);
        assert coinStep(infos[i]) == Some(Some(c));
      }
    }
  }

  /** Every saved position is open and valued at |size| x price. */
  lemma SavedPositionsAreOpen(infos: seq<map<string, JsonValue>>, shorts: seq<string>, quote: string -> real)
    requires SnapshotPositions(infos, shorts, quote).Some?
    ensures var ps := SnapshotPositions(infos, shorts, quote).value;
            forall c :: c in ps ==> IsOpen(ps[c].size) && ps[c].value == Notional(Abs(ps[c].size), ps[c].price)
                                    && ps[c].price == SnapshotPrice(c, shorts, quote)
  {
    var step := (info: map<string, JsonValue>) => SnapshotRecord(info, shorts, quote);
    CollectValues(step, infos);
    var ps := Collect(step, infos).value;
    forall c | c in ps
      ensures IsOpen(ps[c].size) && ps[c].value == Notional(Abs(ps[c].size), ps[c].price)
              && ps[c].price == SnapshotPrice(c, shorts, quote)
    {
      var i :| 0 <= i < |infos| && step(infos[i]) == Some(Some((c, ps[c])));
    }
  }

  /** Records of coins that are neither BTC nor listed shorts add nothing to
      either total. */
  lemma {:induction false} UnlistedCoinsNotTotalled(infos: seq<map<string, JsonValue>>, shorts: seq<string>, quote: string -> real)
    requires forall i :: 0 <= i < |infos| ==>
               (CoinOf(infos[i]) != Some(Core) && (CoinOf(infos[i]).None? || CoinOf(infos[i]).value !in shorts))
    ensures Totals(infos, shorts, quote) == (0.0, 0.0)
  {
    if |infos| > 0 {
      UnlistedCoinsNotTotalled(infos[..|infos| - 1], shorts, quote);
    }
  }

  /** With no negative quote, both totals are non-negative. */
  lemma {:induction false} TotalsNonNegative(infos: seq<map<string, JsonValue>>, shorts: seq<string>, quote: string -> real)
    requires forall c :: quote(c) >= 0.0
    ensures Totals(infos, shorts, quote).0 >= 0.0 && Totals(infos, shorts, quote).1 >= 0.0
  {
    if |infos| > 0 {
      TotalsNonNegative(infos[..|infos| - 1], shorts, quote);
      ShareNonNegative(infos[|infos| - 1], shorts, quote);
    }
  }

  lemma ShareNonNegative(info: map<string, JsonValue>, shorts: seq<string>, quote: string -> real)
    requires forall c :: quote(c) >= 0.0
    ensures ValueShare(info, shorts, quote).0 >= 0.0 && ValueShare(info, shorts, quote).1 >= 0.0
  {
    match SnapshotRecord(info, shorts, quote)
    case Some(Some((c, sp))) =>
      MulNonNegative(Abs(sp.size), sp.price);
    case _ =>
  }

  // ---------------------------------------------------------------------
  // Step 2: closing every position.

  /** One pass of `_close_all_positions`' first loop: the coin of an open
      position is listed; `float(szi)` may raise. */
  function CloseTarget(info: map<string, JsonValue>): (r: Option<Option<string>>)
    ensures r.None? <==> Number(info, "szi").None?
    ensures r.Some? && r.value.Some? <==> CoinOf(info).Some? && Number(info, "szi").Some? && IsOpen(Number(info, "szi").value)
    ensures r.Some? && r.value.Some? ==> CoinOf(info) == r.value
  {
    match Number(info, "szi")
    case None => None
    case Some(size) =>
      if HasCoin(info) && IsOpen(size) && CoinOf(info).Some? then Some(CoinOf(info)) else Some(None)
  }

  function Closes(coins: seq<string>): (r: seq<Action>)
    ensures |r| == |coins| && forall i :: 0 <= i < |coins| ==> r[i] == Close(coins[i])
  {
    seq(|coins|, i requires 0 <= i < |coins| => Close(coins[i]))
  }

  /** Python's `_close_all_positions`: every open position gets a
      `market_close`, whatever happened to the others, and one wait follows
      the batch; nothing open means True at once, without a wait. */
  function CloseAllPositions(state: UserState, closeReply: string -> VenueReply, delays: Delays): (r: StepRun)
    ensures PositionInfos(state).None? ==> r == StepRun(false, [])
    ensures PositionInfos(state).Some? ==> var plan := CollectSeq(CloseTarget, PositionInfos(state).value);
            && (plan.None? ==> r == StepRun(false, []))
            && (plan == Some([]) ==> r == StepRun(true, []))
            && (plan.Some? && plan.value != [] ==>
                  && r.trace == Closes(plan.value) + [Wait(delays.orderProcessing)]
                  && (r.ok <==> forall i :: 0 <= i < |plan.value| ==> StatusOk(closeReply(plan.value[i]))))
  {
    match PositionInfos(state)
    case None => StepRun(false, [])
    case Some(infos) =>
      match CollectSeq(CloseTarget, infos)
      case None => StepRun(false, [])
      case Some(coins) =>
        if coins == [] then StepRun(true, [])
        else StepRun(forall i :: 0 <= i < |coins| ==> StatusOk(closeReply(coins[i])),
                     Closes(coins) + [Wait(delays.orderProcessing)])
  }

  // ---------------------------------------------------------------------
  // Step 3: setting every leverage.

  function SetLeverages(shorts: seq<string>, leverage: int): (r: seq<Action>)
    ensures |r| == |shorts| && forall i :: 0 <= i < |shorts| ==> r[i] == SetLeverage(shorts[i], leverage)
  {
    seq(|shorts|, i requires 0 <= i < |shorts| => SetLeverage(shorts[i], leverage))
  }

  /** Python's `_set_all_leverages`: BTC to `requiredBtc`, then every short to
      `requiredShorts`, each attempted whatever happened to the others, then
      one wait. `leverageReply` is the venue's answer to `update_leverage`. */
  function SetAllLeverages(requiredBtc: int, requiredShorts: int, shorts: seq<string>,
                           leverageReply: (string, int) -> VenueReply, delays: Delays): (r: StepRun)
    ensures |r.trace| == |shorts| + 2
    ensures r.trace[0] == SetLeverage(Core, requiredBtc)
    ensures forall i :: 0 <= i < |shorts| ==> r.trace[i + 1] == SetLeverage(shorts[i], requiredShorts)
    ensures r.trace[|shorts| + 1] == Wait(delays.leverageUpdate)
    ensures forall a :: a in r.trace ==> a.SetLeverage? || a.Wait?
    ensures r.ok <==> StatusOk(leverageReply(Core, requiredBtc))
                      && forall i :: 0 <= i < |shorts| ==> StatusOk(leverageReply(shorts[i], requiredShorts))
  {
    assert forall a :: a in SetLeverages(shorts, requiredShorts) ==> a.SetLeverage?;
    StepRun(StatusOk(leverageReply(Core, requiredBtc))
              && (forall i :: 0 <= i < |shorts| ==> StatusOk(leverageReply(shorts[i], requiredShorts))),
            [SetLeverage(Core, requiredBtc)] + SetLeverages(shorts, requiredShorts) + [Wait(delays.leverageUpdate)])
  }

  // ---------------------------------------------------------------------
  // Step 4: reopening.

  /** What `_open_position` needs from outside: the asset metadata given at
      construction, the price a fresh market-data provider quotes (0.0 when it
      fails), and the venue's answer to `market_open`. */
  datatype OpenVenue = OpenVenue(meta: AssetMeta, quote: string -> real, openReply: MarketOpen -> VenueReply)

  /** A position to open: symbol, USD value, and side. */
  datatype OpenIntent = OpenIntent(symbol: string, target: real, isBuy: bool)

  /** Python's `_open_position`: with a non-zero price, the validated size of
      target / price is sent; the result is True iff the venue says "ok". The
      second component is the order sent, if any. */
  function OpenPosition(v: OpenVenue, o: OpenIntent): (r: (bool, Option<MarketOpen>))
    ensures v.quote(o.symbol) == 0.0 ==> r == (false, None)
    ensures r.1.Some? ==> var price := v.quote(o.symbol);
            var check := ValidateOrderSize(v.meta, o.symbol, Units(o.target, price));
            && check.ok && r.1.value == MarketOpen(o.symbol, o.isBuy, check.size, price)
    ensures v.quote(o.symbol) != 0.0 && !ValidateOrderSize(v.meta, o.symbol, Units(o.target, v.quote(o.symbol))).ok ==>
              r == (false, None)
    ensures r.0 <==> r.1.Some? && StatusOk(v.openReply(r.1.value))
  {
    var price := v.quote(o.symbol);
    if price == 0.0 then (false, None)
    else
      var check := ValidateOrderSize(v.meta, o.symbol, Units(o.target, price));
      if !check.ok then (false, None)
      else
        var call := MarketOpen(o.symbol, o.isBuy, check.size, price);
        (StatusOk(v.openReply(call)), Some(call))
  }

  /** The orders sent by opening `intents` in turn. */
  function SentOrders(v: OpenVenue, intents: seq<OpenIntent>): (r: seq<Action>)
    ensures |r| <= |intents|
    ensures forall a :: a in r ==> a.Open?
  {
    if |intents| == 0 then []
    else
      var last := OpenPosition(v, intents[|intents| - 1]);
      SentOrders(v, intents[..|intents| - 1]) + (if last.1.Some? then [Open(last.1.value)] else [])
  }

  /** Opening `intents` one by one: each attempted, True iff all succeed. */
  function OpenAll(v: OpenVenue, intents: seq<OpenIntent>): (r: StepRun)
    ensures r.ok <==> forall i :: 0 <= i < |intents| ==> OpenPosition(v, intents[i]).0
    ensures r.trace == SentOrders(v, intents)
  {
    StepRun(forall i :: 0 <= i < |intents| ==> OpenPosition(v, intents[i]).0, SentOrders(v, intents))
  }

  /** The reserve `_restore_positions` keeps, whatever the configuration says. */
  const RestoreReserve: real := 0.05
  /** The shorts of the initial-positions path, whatever the configuration says. */
  const InitialShorts: seq<string> := ["ZK", "STRK"]
  /** The smallest target (or margin) that is opened. */
  const MinOpenUsd: real := 5.0

  /** `count` equal parts of `total`. */
  function EvenSplit(symbols: seq<string>, each: real, isBuy: bool): (r: seq<OpenIntent>)
    ensures |r| == |symbols|
    ensures forall i :: 0 <= i < |symbols| ==> r[i] == OpenIntent(symbols[i], each, isBuy)
  {
    seq(|symbols|, i requires 0 <= i < |symbols| => OpenIntent(symbols[i], each, isBuy))
  }

  /** `_create_initial_positions`: 2/3 of the tradable amount as BTC margin and
      1/3 as shorts margin, each side opened (at margin x leverage) only when
      its margin exceeds $5; the shorts side split evenly over ZK and STRK. */
  function InitialIntents(tradable: real, btcLeverage: int, shortsLeverage: int): (r: seq<OpenIntent>)
    ensures var btcMargin := Notional(tradable, 2.0 / 3.0);
            var shortsMargin := Notional(tradable, 1.0 / 3.0);
            && btcMargin + shortsMargin == tradable && btcMargin == 2.0 * shortsMargin
            && r == (if btcMargin > MinOpenUsd then [OpenIntent(Core, Notional(btcMargin, btcLeverage as real), true)] else [])
                    + (if shortsMargin > MinOpenUsd
                       then EvenSplit(InitialShorts, Notional(shortsMargin / 2.0, shortsLeverage as real), false)
                       else [])
  {
    var btcMargin := Notional(tradable, 2.0 / 3.0);
    var shortsMargin := Notional(tradable, 1.0 / 3.0);
    (if btcMargin > MinOpenUsd then [OpenIntent(Core, Notional(btcMargin, btcLeverage as real), true)] else [])
    + (if shortsMargin > MinOpenUsd
       then EvenSplit(InitialShorts, Notional(shortsMargin / |InitialShorts| as real, shortsLeverage as real), false)
       else [])
  }

  /** The snapshot's BTC : shorts value ratio applied to `tradable`. */
  function ProportionalTargets(tradable: real, btcValue: real, shortsValue: real): (t: (real, real))
    requires btcValue + shortsValue != 0.0
    ensures t.0 + t.1 == tradable
    ensures t.0 * shortsValue == t.1 * btcValue
  {
    var total := btcValue + shortsValue;
    var a := btcValue / total;
    var b := shortsValue / total;
    ProportionalSplit(tradable, btcValue, shortsValue);
    (Notional(tradable, a), Notional(tradable, b))
  }

  lemma ProportionalSplit(tradable: real, x: real, y: real)
    requires x + y != 0.0
    ensures Notional(tradable, x / (x + y)) + Notional(tradable, y / (x + y)) == tradable
    ensures Notional(tradable, x / (x + y)) * y == Notional(tradable, y / (x + y)) * x
  {
    var k := x + y;
    var a := x / k;
    var b := y / k;
    DivMul(x, k);
    DivMul(y, k);
    assert a * k == x && b * k == y;
    assert (a + b) * k == a * k + b * k;
    DivUnique(a + b, 1.0, k);
    assert tradable * a + tradable * b == tradable * (a + b);
    assert (a * y) * k == (b * x) * k by {
      assert (a * y) * k == (a * k) * y;
      assert (b * x) * k == (b * k) * x;
    }
    DivUnique(a * y, b * x, k);
    assert (tradable * a) * y == tradable * (a * y);
    assert (tradable * b) * x == tradable * (b * x);
  }

  /** The non-BTC coins of the snapshot, in their stored order. */
  function HedgeCoins(coins: seq<string>): (r: seq<string>)
    ensures forall c :: c in r <==> c in coins && c != Core
    ensures |r| <= |coins|
  {
    if |coins| == 0 then []
    else
      var rest := HedgeCoins(coins[..|coins| - 1]);
      if coins[|coins| - 1] == Core then rest else rest + [coins[|coins| - 1]]
  }

  /** Does the snapshot send `_restore_positions` down the initial path? */
  predicate RestoresInitial(saved: SavedState)
  {
    saved.positions == map[] || saved.totalBtcValue == 0.0 || saved.totalBtcValue + saved.totalShortsValue == 0.0
  }

  /** The positions `_restore_positions` opens, in order. */
  function RestoreIntents(saved: SavedState, btcLeverage: int, shortsLeverage: int): (r: seq<OpenIntent>)
    ensures RestoresInitial(saved) ==>
              r == InitialIntents(Notional(saved.nav, 1.0 - RestoreReserve), btcLeverage, shortsLeverage)
    ensures !RestoresInitial(saved) ==>
              var t := ProportionalTargets(Notional(saved.nav, 1.0 - RestoreReserve), saved.totalBtcValue, saved.totalShortsValue);
              var hedge := HedgeCoins(saved.coins);
              && r == (if t.0 > MinOpenUsd then [OpenIntent(Core, t.0, true)] else [])
                      + (if |hedge| > 0 && t.1 > MinOpenUsd then EvenSplit(hedge, t.1 / |hedge| as real, false) else [])
  {
    var tradable := Notional(saved.nav, 1.0 - RestoreReserve);
    if RestoresInitial(saved) then InitialIntents(tradable, btcLeverage, shortsLeverage)
    else
      var t := ProportionalTargets(tradable, saved.totalBtcValue, saved.totalShortsValue);
      var hedge := HedgeCoins(saved.coins);
      (if t.0 > MinOpenUsd then [OpenIntent(Core, t.0, true)] else [])
      + (if |hedge| > 0 && t.1 > MinOpenUsd then EvenSplit(hedge, t.1 / |hedge| as real, false) else [])
  }

  /** Python's `_restore_positions`. */
  function RestorePositions(saved: SavedState, btcLeverage: int, shortsLeverage: int, v: OpenVenue): (r: StepRun)
    ensures r == OpenAll(v, RestoreIntents(saved, btcLeverage, shortsLeverage))
    ensures forall a :: a in r.trace ==> a.Open?
  {
    OpenAll(v, RestoreIntents(saved, btcLeverage, shortsLeverage))
  }

  /** On the proportional path the hedge is split evenly over every non-BTC
      coin of the snapshot (not only the configured shorts), each opened as a
      sell, and BTC is opened as a buy. */
  lemma RestoreSplitsHedgeEvenly(saved: SavedState, btcLeverage: int, shortsLeverage: int, k: int)
    requires !RestoresInitial(saved)
    requires var t := ProportionalTargets(Notional(saved.nav, 1.0 - RestoreReserve), saved.totalBtcValue, saved.totalShortsValue);
             t.1 > MinOpenUsd
    requires 0 <= k < |HedgeCoins(saved.coins)|
    ensures var t := ProportionalTargets(Notional(saved.nav, 1.0 - RestoreReserve), saved.totalBtcValue, saved.totalShortsValue);
            var hedge := HedgeCoins(saved.coins);
            OpenIntent(hedge[k], t.1 / |hedge| as real, false) in RestoreIntents(saved, btcLeverage, shortsLeverage)
  {
    var t := ProportionalTargets(Notional(saved.nav, 1.0 - RestoreReserve), saved.totalBtcValue, saved.totalShortsValue);
    var hedge := HedgeCoins(saved.coins);
    var split := EvenSplit(hedge, t.1 / |hedge| as real, false);
    assert split[k] in split;
  }

  // ---------------------------------------------------------------------
  // The protocol.

  /** Everything the protocol reads from the venue: the account document as
      each of its three `user_state` reads returns it (for the compliance
      check, the snapshot and the close batch; any of them may fail or differ
      from the others), the quotes for the snapshot, and the answers to
      `update_leverage`, `market_close` and `market_open`. */
  datatype RiskVenue = RiskVenue(
    checkState: UserState,
    snapshotState: UserState,
    closeState: UserState,
    snapshotQuote: string -> real,
    leverageReply: (string, int) -> VenueReply,
    closeReply: string -> VenueReply,
    opening: OpenVenue)

  /** The protocol's order of phases: no close after a leverage change or an
      open, and no leverage change after an open. */
  predicate Phased(trace: seq<Action>)
  {
    forall i, j :: 0 <= i < j < |trace| ==>
      !(trace[j].Close? && (trace[i].SetLeverage? || trace[i].Open?))
      && !(trace[j].SetLeverage? && trace[i].Open?)
  }

  /** Running the close, leverage and restore steps in turn, stopping at the
      first that fails. */
  function InTurn(closed: StepRun, levs: StepRun, restored: StepRun): (r: StepRun)
    ensures r.ok <==> closed.ok && levs.ok && restored.ok
    ensures !closed.ok ==> r.trace == closed.trace
    ensures closed.ok && !levs.ok ==> r.trace == closed.trace + levs.trace
    ensures closed.ok && levs.ok ==> r.trace == closed.trace + levs.trace + restored.trace
  {
    if !closed.ok then StepRun(false, closed.trace)
    else if !levs.ok then StepRun(false, closed.trace + levs.trace)
    else StepRun(restored.ok, closed.trace + levs.trace + restored.trace)
  }

  /** `force_leverage_compliance` once the compliance map is known: nothing
      to do when every entry is compliant (including an empty map); otherwise
      snapshot, close, set and restore, stopping at the first failure. */
  function ForceFromCompliance(compliance: map<string, bool>, requiredBtc: int, requiredShorts: int,
                               shorts: seq<string>, venue: RiskVenue, delays: Delays): (r: StepRun)
    ensures AllCompliant(compliance) ==> r == StepRun(true, [])
    ensures !AllCompliant(compliance) && SavePortfolioState(venue.snapshotState, shorts, venue.snapshotQuote).None? ==>
              r == StepRun(false, [])
    ensures !AllCompliant(compliance) && SavePortfolioState(venue.snapshotState, shorts, venue.snapshotQuote).Some? ==>
              r == InTurn(CloseAllPositions(venue.closeState, venue.closeReply, delays),
                          SetAllLeverages(requiredBtc, requiredShorts, shorts, venue.leverageReply, delays),
                          RestorePositions(SavePortfolioState(venue.snapshotState, shorts, venue.snapshotQuote).value,
                                           requiredBtc, requiredShorts, venue.opening))
  {
    if AllCompliant(compliance) then StepRun(true, [])
    else
      match SavePortfolioState(venue.snapshotState, shorts, venue.snapshotQuote)
      case None => StepRun(false, [])
      case Some(saved) =>
        InTurn(CloseAllPositions(venue.closeState, venue.closeReply, delays),
               SetAllLeverages(requiredBtc, requiredShorts, shorts, venue.leverageReply, delays),
               RestorePositions(saved, requiredBtc, requiredShorts, venue.opening))
  }

  /** Python's `force_leverage_compliance`: the check is made against the
      leverages of the first account read. Nothing happens when every
      leverage complies; otherwise the trace goes closes, leverage changes,
      opens, a failed close stops it, and the result is True iff the
      snapshot, the close, the leverage batch and the restore all succeed. */
  function ForceLeverageCompliance(requiredBtc: int, requiredShorts: int, shorts: seq<string>,
                                   venue: RiskVenue, delays: Delays): (r: StepRun)
    ensures Phased(r.trace)
    ensures AllCompliant(CheckLeverageCompliance(GetCurrentLeverages(venue.checkState), requiredBtc, requiredShorts, shorts)) ==>
              r == StepRun(true, [])
    ensures !AllCompliant(CheckLeverageCompliance(GetCurrentLeverages(venue.checkState), requiredBtc, requiredShorts, shorts)) ==>
              (r.ok <==> && SavePortfolioState(venue.snapshotState, shorts, venue.snapshotQuote).Some?
                         && CloseAllPositions(venue.closeState, venue.closeReply, delays).ok
                         && SetAllLeverages(requiredBtc, requiredShorts, shorts, venue.leverageReply, delays).ok
                         && RestorePositions(SavePortfolioState(venue.snapshotState, shorts, venue.snapshotQuote).value,
                                             requiredBtc, requiredShorts, venue.opening).ok)
    ensures SavePortfolioState(venue.snapshotState, shorts, venue.snapshotQuote).None? ==> r.trace == []
    ensures !CloseAllPositions(venue.closeState, venue.closeReply, delays).ok ==> forall a :: a in r.trace ==> a.Close? || a.Wait?
  {
    var compliance := CheckLeverageCompliance(GetCurrentLeverages(venue.checkState), requiredBtc, requiredShorts, shorts);
    ForceTraceIsPhased(compliance, requiredBtc, requiredShorts, shorts, venue, delays);
    if !CloseAllPositions(venue.closeState, venue.closeReply, delays).ok then
      FailedCloseStops(compliance, requiredBtc, requiredShorts, shorts, venue, delays);
      ForceFromCompliance(compliance, requiredBtc, requiredShorts, shorts, venue, delays)
    else
      ForceFromCompliance(compliance, requiredBtc, requiredShorts, shorts, venue, delays)
  }

  /** Each read stands alone: when the snapshot's read succeeds but the
      close batch's read raises, the reset fails before any action, even
      though the snapshot was taken. */
  lemma CloseReadFailureStopsReset(requiredBtc: int, requiredShorts: int, shorts: seq<string>,
                                   venue: RiskVenue, delays: Delays)
    requires !AllCompliant(CheckLeverageCompliance(GetCurrentLeverages(venue.checkState), requiredBtc, requiredShorts, shorts))
    requires SavePortfolioState(venue.snapshotState, shorts, venue.snapshotQuote).Some?
    requires venue.closeState.None?
    ensures ForceLeverageCompliance(requiredBtc, requiredShorts, shorts, venue, delays) == StepRun(false, [])
  {
  }

  /** A failed close stops the protocol: no leverage is changed and nothing
      is opened. */
  lemma FailedCloseStops(compliance: map<string, bool>, requiredBtc: int, requiredShorts: int,
                         shorts: seq<string>, venue: RiskVenue, delays: Delays)
    requires !CloseAllPositions(venue.closeState, venue.closeReply, delays).ok
    ensures var r := ForceFromCompliance(compliance, requiredBtc, requiredShorts, shorts, venue, delays);
            !r.ok || AllCompliant(compliance)
    ensures forall a :: a in ForceFromCompliance(compliance, requiredBtc, requiredShorts, shorts, venue, delays).trace ==>
              a.Close? || a.Wait?
  {
    var closed := CloseAllPositions(venue.closeState, venue.closeReply, delays);
    if PositionInfos(venue.closeState).Some? && CollectSeq(CloseTarget, PositionInfos(venue.closeState).value).Some? {
      var coins := CollectSeq(CloseTarget, PositionInfos(venue.closeState).value).value;
      assert forall a :: a in Closes(coins) ==> a.Close?;
    }
  }

  /** The trace of a close batch holds only closes and waits. */
  lemma CloseTraceKinds(state: UserState, closeReply: string -> VenueReply, delays: Delays)
    ensures forall a :: a in CloseAllPositions(state, closeReply, delays).trace ==> a.Close? || a.Wait?
  {
    if PositionInfos(state).Some? && CollectSeq(CloseTarget, PositionInfos(state).value).Some? {
      var coins := CollectSeq(CloseTarget, PositionInfos(state).value).value;
      assert forall a :: a in Closes(coins) ==> a.Close?;
    }
  }

  /** The trace of a leverage batch holds only leverage changes and waits. */
  lemma SetTraceKinds(requiredBtc: int, requiredShorts: int, shorts: seq<string>,
                      leverageReply: (string, int) -> VenueReply, delays: Delays)
    ensures forall a :: a in SetAllLeverages(requiredBtc, requiredShorts, shorts, leverageReply, delays).trace ==>
              a.SetLeverage? || a.Wait?
  {
    assert forall a :: a in SetLeverages(shorts, requiredShorts) ==> a.SetLeverage?;
  }

  /** Steps whose traces hold only closes, only leverage changes and only
      opens (waits aside) give a phased trace when run in turn. */
  lemma InTurnIsPhased(closed: StepRun, levs: StepRun, restored: StepRun)
    requires forall x :: x in closed.trace ==> x.Close? || x.Wait?
    requires forall x :: x in levs.trace ==> x.SetLeverage? || x.Wait?
    requires forall x :: x in restored.trace ==> x.Open?
    ensures Phased(InTurn(closed, levs, restored).trace)
  {
    ConcatPhased(closed.trace, levs.trace, restored.trace);
    if !closed.ok {
      ConcatPhased(closed.trace, [], []);
      assert closed.trace + [] + [] == closed.trace;
    }
  }

  /** Closes, then leverage changes, then opens: the protocol's trace never
      goes back to an earlier phase. */
  lemma ForceTraceIsPhased(compliance: map<string, bool>, requiredBtc: int, requiredShorts: int,
                           shorts: seq<string>, venue: RiskVenue, delays: Delays)
    ensures Phased(ForceFromCompliance(compliance, requiredBtc, requiredShorts, shorts, venue, delays).trace)
  {
    var saved := SavePortfolioState(venue.snapshotState, shorts, venue.snapshotQuote);
    if !AllCompliant(compliance) && saved.Some? {
      CloseTraceKinds(venue.closeState, venue.closeReply, delays);
      SetTraceKinds(requiredBtc, requiredShorts, shorts, venue.leverageReply, delays);
      InTurnIsPhased(CloseAllPositions(venue.closeState, venue.closeReply, delays),
                     SetAllLeverages(requiredBtc, requiredShorts, shorts, venue.leverageReply, delays),
                     RestorePositions(saved.value, requiredBtc, requiredShorts, venue.opening));
    }
  }

  lemma ConcatPhased(a: seq<Action>, b: seq<Action>, c: seq<Action>)
    requires forall x :: x in a ==> x.Close? || x.Wait?
    requires forall x :: x in b ==> x.SetLeverage? || x.Wait?
    requires forall x :: x in c ==> x.Open?
    ensures Phased(a + b + c)
    ensures Phased(a + b)
  {
    var t := a + b + c;
    forall i, j | 0 <= i < j < |t|
      ensures !(t[j].Close? && (t[i].SetLeverage? || t[i].Open?)) && !(t[j].SetLeverage? && t[i].Open?)
    {
      if j < |a| {
        assert t[i] in a && t[j] in a;
      } else if j < |a| + |b| {
        assert t[j] in b;
        if i >= |a| { assert t[i] in b; } else { assert t[i] in a; }
      } else {
        assert t[j] in c;
      }
    }
    var s := a + b;
    forall i, j | 0 <= i < j < |s|
      ensures !(s[j].Close? && (s[i].SetLeverage? || s[i].Open?)) && !(s[j].SetLeverage? && s[i].Open?)
    {
      assert s[i] == t[i] && s[j] == t[j];
    }
  }

  // ---------------------------------------------------------------------
  // The margin split reported with the position details.

  /** One pass of `get_position_details_with_leverage`' loop: a record with a
      coin converts its four numbers (any failure raises) and adds its margin
      to BTC or, for every other coin, to the shorts. */
  function MarginRecord(info: map<string, JsonValue>): (r: Option<(real, real)>)
    ensures !HasCoin(info) ==> r == Some((0.0, 0.0))
  {
    if !HasCoin(info) then Some((0.0, 0.0))
    else
      match (Number(info, "szi"), Number(info, "unrealizedPnl"), Number(info, "marginUsed"),
             ParseLeverage(Get(info, "leverage", JNull)))
      case (Some(_), Some(_), Some(margin), Some(_)) =>
        if CoinOf(info) == Some(Core) then Some((margin, 0.0)) else Some((0.0, margin))
      case _ => None
  }

  /** No record makes the loop raise. */
  ghost predicate MarginRecordsConvert(infos: seq<map<string, JsonValue>>)
  {
    forall i :: 0 <= i < |infos| ==> MarginRecord(infos[i]).Some?
  }

  /** The loop's running (BTC, shorts) totals under a given per-record step;
      None once a step raises. */
  function SplitWith(step: map<string, JsonValue> -> Option<(real, real)>, infos: seq<map<string, JsonValue>>)
    : (r: Option<(real, real)>)
    ensures r.Some? <==> forall i :: 0 <= i < |infos| ==> step(infos[i]).Some?
  {
    if |infos| == 0 then Some((0.0, 0.0))
    else
      match (SplitWith(step, infos[..|infos| - 1]), step(infos[|infos| - 1]))
      case (Some(t), Some(s)) => Some((t.0 + s.0, t.1 + s.1))
      case _ => None
  }

  /** The loop's (BTC, shorts) margin totals over the position records. */
  function MarginTotals(infos: seq<map<string, JsonValue>>): (r: Option<(real, real)>)
    ensures r.Some? <==> MarginRecordsConvert(infos)
  {
    SplitWith(MarginRecord, infos)
  }

  /** `btc_margin_used` and `shorts_margin_used` of
      `get_position_details_with_leverage`; None when the call returns `{}`:
      the document cannot be read, `marginSummary` is not an object or one of
      its four fields does not convert, or a position record does not. */
  function MarginSplit(state: UserState): (r: Option<(real, real)>)
    ensures r.Some? <==> && PositionInfos(state).Some?
                         && MarginSummary(state).Some? && SummaryOf(MarginSummary(state).value).Some?
                         && MarginRecordsConvert(PositionInfos(state).value)
    ensures r.Some? ==> r == MarginTotals(PositionInfos(state).value)
    ensures state.Some? && "assetPositions" !in state.value && "marginSummary" !in state.value ==> r == Some((0.0, 0.0))
  {
    match (PositionInfos(state), MarginSummary(state))
    case (Some(infos), Some(ms)) =>
      if SummaryOf(ms).Some? then MarginTotals(infos) else None
    case _ => None
  }

  /** Unlike the strategy's split, this one credits every coin other than BTC
      to the shorts: a margin on any other coin moves the shorts total. */
  lemma OtherCoinCountsAsShort(infos: seq<map<string, JsonValue>>, info: map<string, JsonValue>, m: real)
    requires MarginTotals(infos).Some?
    requires HasCoin(info) && CoinOf(info) != Some(Core)
    requires Number(info, "szi").Some? && Number(info, "unrealizedPnl").Some?
             && ParseLeverage(Get(info, "leverage", JNull)).Some? && Number(info, "marginUsed") == Some(m)
    ensures MarginTotals(infos + [info]) == Some((MarginTotals(infos).value.0, MarginTotals(infos).value.1 + m))
  {
    ShortMarginRecord(info, m);
    MarginTotalsAppend(infos, info);
  }

  /** Appending a record adds its shares to the totals so far. */
  lemma MarginTotalsAppend(infos: seq<map<string, JsonValue>>, info: map<string, JsonValue>)
    requires MarginTotals(infos).Some? && MarginRecord(info).Some?
    ensures MarginTotals(infos + [info]) ==
              Some((MarginTotals(infos).value.0 + MarginRecord(info).value.0,
                    MarginTotals(infos).value.1 + MarginRecord(info).value.1))
  {
    SplitWithAppend(MarginRecord, infos, info);
  }

  lemma SplitWithAppend(step: map<string, JsonValue> -> Option<(real, real)>,
                        infos: seq<map<string, JsonValue>>, info: map<string, JsonValue>)
    requires SplitWith(step, infos).Some? && step(info).Some?
    ensures SplitWith(step, infos + [info]) ==
              Some((SplitWith(step, infos).value.0 + step(info).value.0,
                    SplitWith(step, infos).value.1 + step(info).value.1))
  {
    var all := infos + [info];
    assert all[..|all| - 1] == infos && all[|all| - 1] == info;
  }

  lemma ShortMarginRecord(info: map<string, JsonValue>, m: real)
    requires HasCoin(info) && CoinOf(info) != Some(Core)
    requires Number(info, "szi").Some? && Number(info, "unrealizedPnl").Some?
             && ParseLeverage(Get(info, "leverage", JNull)).Some? && Number(info, "marginUsed") == Some(m)
    ensures MarginRecord(info) == Some((0.0, m))
  {
  }
}
