# Hyperliquid long/short trader — a Dafny model

The trader keeps a book that is long BTC and short a list of alt-coins ("the
shorts") on the Hyperliquid perpetuals venue. It aims for a target ratio of
BTC margin to shorts margin, and it keeps the leverage of every coin at the
configured value. This project models its decision and protocol layer as pure
Dafny functions over immutable datatypes, and proves what each layer promises.

- **Strategy** (`strategy.dfy`):
  - builds the portfolio state from positions, prices and per-position margin;
  - decides whether to rebalance: reserve-adjusted targets, deviation, strict threshold;
  - plans the BTC leg and the shorts leg as independent market orders;
  - runs one strategy cycle: PnL tracking first, then the compliance check and the rebalance.
- **Risk manager** (`risk_manager.dfy`):
  - reads current leverages and checks them against the required ones;
  - runs the full reset protocol: snapshot, close all, set all leverages, restore.
  - The reset is a function that returns an action trace (`Close`, `SetLeverage`, `Open`, `Wait`) against scripted venue replies.
- **Order executor** (`order_executor.dfy`):
  - rounds an order size to the step and to `szDecimals`, then checks the minimum size;
  - maps a venue reply to an order result;
  - closes every open position, best effort.
- **Trader** (`trader.dfy`):
  - runs one trading cycle with its operation tracker;
  - runs the main loop until the stop signal;
  - forces a rebalance;
  - derives the status fields.
- **Configuration** (`config_validator.dfy`, `config_manager.dfy`): the validator that collects error messages, and typed accessors with defaults.
- **Supporting state machines**:
  - retry with back-off, the price sanity validator and the circuit breaker (`network_utils.dfy`);
  - persisted-record loading and ledger queries (`state_manager.dfy`);
  - performance counters (`performance_monitor.dfy`);
  - the TTL-cached providers for positions, prices and asset metadata.

`util.dfy` and `json.dfy` hold shared helpers:

- Python truthiness and `float()`/`int()` conversion on a JSON value type.
- `dict.get`.
- Folds that build a dict or a list from a sequence of records, where any record may raise.

Conventions that run through the model:

- Every venue or SDK call is an input: a reply value, or an arrow that gives the reply per call.
- An exception is `None` (or a `Threw`/`Raised` outcome).
- `now` and the jitter draw are parameters.
- Every sleep is a `Wait` (or `Tick`) event in a trace.
- Floats are `real`. Python `round` is modelled as round-half-to-even on exact reals.

## Model

| member | source | states |
|---|---|---|
| Strategy.NewParams | strategy.py:50-75 | ratio target, reserve and threshold are stored as given; shorts default to ZK and STRK when not configured |
| Strategy.ShortsValueNonNegative | strategy.py:90-97 | the shorts value, a sum of abs(size)·price, is never negative when prices are non-negative |
| Strategy.MarginsConcat | strategy.py:102-110 | the BTC and shorts margin sums are additive over concatenated position lists |
| Strategy.UnlistedCoinIgnored | strategy.py:102-110 | a position whose coin is neither BTC nor a configured short changes neither margin sum |
| Strategy.MarginsNonNegative | strategy.py:102-110 | both margin sums are non-negative when every position's margin is |
| Strategy.PositionRatio | strategy.py:113-115 | the ratio times the shorts margin is the BTC margin when shorts margin > 0; otherwise it is the 999.0 sentinel |
| Strategy.MarginUsagePercent | strategy.py:117-118 | usage times nav is 100·margin used when nav > 0; otherwise 0 |
| Strategy.GetPortfolioState | strategy.py:79-131 | nav is the account value, or 0 without a summary; the BTC position is the BTC size (0.0 when missing) and its value is signed size·price; shorts positions have exactly the configured shorts as keys, a missing one read as 0.0; shorts value sums abs(size)·price; margins come only from BTC and configured shorts; available balance = nav − margin used |
| Strategy.Targets | strategy.py:136-141 | BTC target + shorts target = the tradable total, and BTC target = ratio · shorts target |
| Strategy.TargetsSplit | strategy.py:136-141 | the two target formulas split the total exactly, in the target ratio |
| Strategy.Deviation | strategy.py:144-147 | deviation times the target is abs(ratio − target) when target > 0; otherwise 0; never negative |
| Strategy.CalculateRebalanceDecision | strategy.py:133-167 | raises only when ratio target = −1 (division by zero); targets, current values and deviation come from the portfolio; rebalance iff deviation > threshold, strictly; the reason is empty iff not rebalancing, and "too high" iff the ratio exceeds the target |
| Strategy.OnTargetNoRebalance | strategy.py:144-156 | a ratio equal to a positive target never triggers a rebalance and gives no reason |
| Strategy.NoShortsMarginTriggersRebalance | strategy.py:113-115 | with the default parameters, the 999.0 sentinel always triggers a rebalance whose reason is "ratio too high" |
| Strategy.PlanBtc | strategy.py:181-201 | no BTC order iff abs(diff) ≤ 5; a failure without an order iff abs(diff) > 5 and the BTC price ≤ 0; otherwise size·price = abs(diff), a buy iff the target exceeds the current value |
| Strategy.ShortOrder | strategy.py:214-257 | a zero price gives no order; an order has size·price = abs(gap), its gap exceeds 2, and it is a buy iff the symbol is at or above its share; no order at a non-zero price means abs(gap) ≤ 2 |
| Strategy.ShortOrders | strategy.py:214-257 | every planned order is the order its own symbol calls for; every symbol that calls for an order gets it; when every symbol does, the orders are exactly those, one per symbol, in list order |
| Strategy.ShortOrdersConcat | strategy.py:214-257 | planning over two lists of shorts gives the first list's orders followed by the second's |
| Strategy.ShortOrdersIgnoreOtherPrices | strategy.py:214-257 | the shorts plan depends only on the prices of the shorts |
| Strategy.PlanShorts | strategy.py:204-212 | no orders iff abs(shorts diff) ≤ 5; it raises (division by zero) iff it must run over no shorts; otherwise the orders are the shorts plan with each short targeting shorts target / number of shorts |
| Strategy.Successes | strategy.py:196-201 | counts the orders the venue accepted; equals the number of orders iff every order succeeded |
| Strategy.TrackOrders | strategy.py:196-201 | the orders-placed counter grows by the number of successful orders, and nothing else in the monitor changes |
| Strategy.ExecuteRebalance | strategy.py:169-267 | no rebalance means success with no orders; the orders are the BTC leg followed by the shorts leg; a failed order makes the result false but later orders are still sent; a missing BTC price fails the BTC leg and the shorts leg still runs; the result is true iff the BTC price was usable and every order succeeded; the rebalance counter grows only on full success; when the shorts leg raises, only the BTC leg's order was sent |
| Strategy.BtcOrders | strategy.py:181-201 | the BTC leg sends at most one order, and sends one iff the plan is an order |
| Strategy.MissingBtcPriceKeepsShortsLeg | strategy.py:183-201 | a missing BTC price reports failure, sends exactly the shorts leg's orders, and does not count the rebalance |
| Strategy.MissingBtcPriceExample | strategy.py:183-201 | a concrete rebalance with no BTC price still sends both shorts orders and reports failure |
| Strategy.RunStrategyCycle | strategy.py:269-331 | PnL is tracked every cycle; a detected non-compliance forces the reset, returns its result and skips rebalancing; otherwise the decision is executed, or the cycle succeeds with no orders when none is needed |
| Strategy.SuccessfulCycleOrdersAllFilled | strategy.py:269-331 | a successful cycle means every order it sent was accepted |
| Strategy.CloseAll | strategy.py:333-354 | success iff every position with abs(size) > 1e-8 closed successfully |
| Strategy.CloseAllAgreesWithResults | strategy.py:333-354 | the strategy's close-all succeeds iff every result of the executor's close-all succeeded, and every open position has a result |
| RiskManager.DelaysOf | risk_manager.py:26-30 | each API delay is read from the config, defaulting to 3, 2 and 1 seconds |
| RiskManager.GetInt | risk_manager.py:26-30 | a key reads its value, and an absent key reads the default |
| RiskManager.LeverageRecord | risk_manager.py:57-90 | a record without a coin is skipped; otherwise the leverage is parsed from the dict `value`, else the scalar, else 1.0 |
| RiskManager.GetCurrentLeverages | risk_manager.py:57-90 | a failed read, or a record that fails to convert, gives the empty map |
| RiskManager.LeverageOfLastRecord | risk_manager.py:72-78 | each coin maps to the leverage of its last record |
| RiskManager.CurrentLeverageOfLastRecord | risk_manager.py:57-90 | on a readable account document, each coin's current leverage is the one its last record states |
| RiskManager.CheckLeverageCompliance | risk_manager.py:92-122 | the keys are exactly BTC and the shorts; a symbol is compliant iff abs(current − required) < 0.01, with a missing leverage read as 1.0 |
| RiskManager.MissingLeverageCountsAsOne | risk_manager.py:100-107 | a short with no leverage reading is compliant iff the required leverage is 1 |
| RiskManager.SnapshotPrice | risk_manager.py:194-212 | BTC and configured shorts are priced; any other coin gets price 0 |
| RiskManager.SnapshotRecord | risk_manager.py:194-212 | records only open positions (abs(size) > 1e-8), with value = abs(size)·price |
| RiskManager.SnapshotCoin | risk_manager.py:194-212 | a record's coin is snapshotted iff the record is |
| RiskManager.SnapshotPositions | risk_manager.py:175-219 | the snapshot fails iff some position's size does not convert |
| RiskManager.SavePortfolioState | risk_manager.py:175-219 | the snapshot exists iff positions, summary and every size convert; nav is the account value; the totals count BTC and shorts values; the coin list has no duplicates and matches the snapshot keys |
| RiskManager.SnapshotCoinsAreKeys | risk_manager.py:194-212 | the snapshot's coin list and its position keys hold the same coins |
| RiskManager.SavedPositionsAreOpen | risk_manager.py:194-212 | every saved position is open, and its value is abs(size) times its snapshot price |
| RiskManager.UnlistedCoinsNotTotalled | risk_manager.py:205-212 | coins that are neither BTC nor shorts add nothing to either total |
| RiskManager.TotalsNonNegative | risk_manager.py:205-212 | both totals are non-negative when prices are |
| RiskManager.ShareNonNegative | risk_manager.py:205-212 | one position's contribution to each total is non-negative when prices are |
| RiskManager.CloseTarget | risk_manager.py:221-271 | a record is closed iff it names a coin and its size is open |
| RiskManager.Closes | risk_manager.py:233-260 | one close action per open coin, in order |
| RiskManager.CloseAllPositions | risk_manager.py:221-271 | nothing open means success with no wait; otherwise every open coin is closed and one wait follows; success iff every close reply was ok |
| RiskManager.SetLeverages | risk_manager.py:276-285 | one set-leverage action per short, each with the shorts leverage |
| RiskManager.SetAllLeverages | risk_manager.py:273-294 | the trace is exactly BTC's set-leverage, then one set-leverage per short in order with the shorts leverage, then one wait; success iff every reply was ok |
| RiskManager.OpenPosition | risk_manager.py:351-387 | a zero price or a failed size validation sends nothing and fails; otherwise the validated size of target/price is sent, and the result is the reply's ok status |
| RiskManager.SentOrders | risk_manager.py:351-387 | only open actions, at most one per intent |
| RiskManager.OpenAll | risk_manager.py:329-345 | every intent is attempted; success iff each open succeeded |
| RiskManager.EvenSplit | risk_manager.py:339-343 | every symbol gets the same target, in order |
| RiskManager.InitialIntents | risk_manager.py:389-435 | BTC margin is 2/3 and shorts margin 1/3 of the tradable amount; notional = margin × leverage; the shorts notional is split evenly over ZK and STRK; each side opens only when its margin exceeds 5 |
| RiskManager.ProportionalTargets | risk_manager.py:320-325 | the targets sum to the tradable amount and keep the snapshot's BTC:shorts value ratio |
| RiskManager.ProportionalSplit | risk_manager.py:320-325 | the ratio formulas split the tradable amount exactly and in proportion |
| RiskManager.HedgeCoins | risk_manager.py:337 | the hedge coins are exactly the snapshot's coins other than BTC |
| RiskManager.RestoreIntents | risk_manager.py:296-349 | with no positions or zero BTC value, the initial path runs on 95% of nav; otherwise the proportional targets on 95% of nav, with BTC bought and each hedge coin sold at an equal share, each side only above 5 |
| RiskManager.RestorePositions | risk_manager.py:296-349 | restoring opens exactly the restore intents, and only opens |
| RiskManager.RestoreSplitsHedgeEvenly | risk_manager.py:337-343 | every non-BTC snapshot coin, not only the configured shorts, is sold at an equal share of the shorts target |
| RiskManager.InTurn | risk_manager.py:142-163 | the steps run in order and the first failing step stops the protocol; success iff all three succeeded |
| RiskManager.ForceFromCompliance | risk_manager.py:124-173 | all compliant (including the empty map) means success with no action; a failed snapshot read fails before any close; otherwise close (on its own account read), set and restore run in turn |
| RiskManager.ForceLeverageCompliance | risk_manager.py:124-173 | the compliance check, the snapshot and the close batch each use their own account read; the trace is phased; all compliant means success with no action; otherwise success iff the snapshot exists and closing, setting and restoring all succeed; a failed snapshot acts on nothing; a failed close acts on nothing but closes and waits |
| RiskManager.CloseReadFailureStopsReset | risk_manager.py:221-231 | a good snapshot read followed by a failed close-batch read fails the reset with no action |
| RiskManager.FailedCloseStops | risk_manager.py:149-151 | when closing fails, the reset fails (unless already compliant) and no leverage is set and nothing is opened |
| RiskManager.CloseTraceKinds | risk_manager.py:221-271 | closing emits only close and wait actions |
| RiskManager.SetTraceKinds | risk_manager.py:273-294 | setting leverages emits only set-leverage and wait actions |
| RiskManager.InTurnIsPhased | risk_manager.py:142-163 | the protocol's trace has every close before every set-leverage, and every set-leverage before every open |
| RiskManager.ForceTraceIsPhased | risk_manager.py:124-173 | every reset trace is phased: closes, then leverages, then opens |
| RiskManager.ConcatPhased | risk_manager.py:142-163 | appending a close phase, a set phase and an open phase gives a phased trace |
| RiskManager.MarginRecord | risk_manager.py:437-495 | a record without a coin contributes no margin |
| RiskManager.MarginTotals | risk_manager.py:437-495 | the totals of the position records are defined iff every record converts |
| RiskManager.SplitWith | risk_manager.py:437-495 | the margin sum is defined iff every record converts |
| RiskManager.MarginSplit | risk_manager.py:437-495 | the BTC/shorts margin split is defined iff the positions read, the margin summary converts and every position record converts; it is then the totals of the records; a document with neither positions nor summary gives zero margins |
| RiskManager.MarginTotalsAppend | risk_manager.py:437-495 | the totals are additive over appended records |
| RiskManager.SplitWithAppend | risk_manager.py:437-495 | a fold's sum is additive over appended records |
| RiskManager.OtherCoinCountsAsShort | risk_manager.py:437-495 | any coin other than BTC, configured short or not, adds its margin to the shorts side |
| RiskManager.ShortMarginRecord | risk_manager.py:437-495 | a non-BTC record's margin goes entirely to the shorts side |
| OrderExecutor.SizeParamsOf | order_executor.py:140-142 | minSz and szStep default to 10^(−szDecimals), and szDecimals defaults to 6 |
| OrderExecutor.ValidateOrderSize | order_executor.py:133-154 | no metadata gives (False, 0.0); success iff the parameters convert, the step is non-zero and the rounded size reaches minSz; the rounded size is within half a step plus half a unit of the request and has at most szDecimals decimals |
| OrderExecutor.RoundToStepClose | order_executor.py:145 | rounding to a step moves the size by at most half a step |
| OrderExecutor.OnGrid | order_executor.py:145 | the rounded size is a whole multiple of the step |
| OrderExecutor.StepRoundStable | order_executor.py:145 | a size within half a step of a grid point rounds to that grid point |
| OrderExecutor.CoarseStepStable | order_executor.py:145 | when the step is coarser than the decimal unit, re-rounding a rounded size changes nothing |
| OrderExecutor.FineStepStable | order_executor.py:145 | when the step is finer than the decimal unit, re-rounding a rounded size changes nothing |
| OrderExecutor.EqualStepStable | order_executor.py:145 | when the step equals the decimal unit, a grid size is fixed by both roundings |
| OrderExecutor.DoubleRoundingIdempotent | order_executor.py:145 | rounding to the step then to the unit is idempotent for any positive unit |
| OrderExecutor.RoundingIdempotent | order_executor.py:145 | rounding to the step then to szDecimals is idempotent |
| OrderExecutor.ValidateIdempotent | order_executor.py:133-154 | validating an already validated size returns the same verdict and size |
| OrderExecutor.InterpretOrderReply | order_executor.py:50-98 | success iff the status is ok and the first status is a success; then the filled size is the validated size and the order id is the resting oid or none; no statuses, any other reply and an exception are failures with a message |
| OrderExecutor.PlaceMarketOrder | order_executor.py:29-98 | a failed validation sends nothing; otherwise the exchange receives the validated size, never the raw one; success iff the reply is a success |
| OrderExecutor.ClosePosition | order_executor.py:100-131 | success iff the reply status is ok; no order id |
| OrderExecutor.CloseAllPositions | order_executor.py:156-170 | results are keyed exactly by the symbols with abs(size) > 1e-8, each its own close result |
| Trader.TrackOperation | trader.py:126-144 | always records latency and one call; counts a success iff nothing was raised, else a failure and an error |
| Trader.RunTradingCycle | trader.py:95-124 | state is saved iff the cycle returned; the result is true iff the cycle returned true; a thrown cycle adds two errors |
| Trader.ThrownCycleCountedTwice | trader.py:119-124 | a thrown cycle would be recorded as two failures of the trading-cycle operation, by the tracker and by the handler (a path the program never takes) |
| Trader.ReturnedCycleCountedOnce | trader.py:103-117 | a returned cycle, successful or not, is recorded as one success of the operation |
| Trader.SleepTicks | trader.py:169-175 | the sleep takes at most its duration in ticks and stops at the first check after the signal |
| Trader.Ticks | trader.py:172-175 | n ticks are n one-second waits |
| Trader.Loop | trader.py:154-175 | the loop stops only on the signal or a raise; every cycle before the last returned |
| Trader.MainLoop | trader.py:146-183 | cleanup always ends the run; the run raised iff some cycle threw; without a raise the loop runs until the signal; a signal after the start means at least one cycle |
| Trader.FailedCycleContinues | trader.py:159-166 | the number of cycles depends only on whether cycles threw, not on whether they succeeded |
| Trader.CyclesUntilSignal | trader.py:154-175 | with no raise, the loop runs ceil(remaining checks / (duration + 2)) more cycles |
| Trader.LoopStep | trader.py:154-175 | one cycle plus its sleep consumes duration + 2 flag checks |
| Trader.CycleCount | trader.py:146-183 | with no raise, k cycles cover the signal: k·(duration + 2) ≥ signal and (k − 1)·(duration + 2) < signal |
| Trader.Force | trader.py:324-325 | forcing sets the rebalance flag and the forced reason and changes nothing else |
| Trader.ForceRebalance | trader.py:314-338 | the forced decision is executed on the same portfolio; the result is true iff execution returned true; a decision that raises gives false with no orders |
| Trader.ForcedKeepsTargets | trader.py:320-327 | forcing keeps the targets, current values and deviation exactly as computed |
| Trader.OpenPositions | trader.py:254-258 | open positions are BTC and the shorts with abs(size) > 1e-8, a short of the same name overriding BTC |
| Trader.MarginRatio | trader.py:284-288 | the ratio times the shorts margin is the BTC margin when shorts margin > 1e-6; otherwise 0 |
| Trader.PortfolioStatus | trader.py:226-312 | nav for trading + reserve = nav; BTC value at its signed size and shorts value over the list; open positions; the margins are the margin split of the account document, zeros when it cannot be read; the ratio times the shorts margin is the BTC margin above 1e-6 of shorts margin, else 0 |
| Trader.StatusAgreesWithPortfolio | trader.py:226-312 | with a shorts list without repeats, the status BTC and shorts values equal the strategy portfolio's, and with the same margins above 1e-6 the two ratios agree |
| ConfigValidator.MissingErrors | config_validator.py:31-46 | a missing-field error appears iff the field is required and absent |
| ConfigValidator.MissingReportedOnce | config_validator.py:31-46 | each missing required field is reported exactly once |
| ConfigValidator.KeyErrors | config_validator.py:49-55 | a key error appears iff the key is present but not a string starting with 0x |
| ConfigValidator.Convert | config_validator.py:58-75 | floats convert by `float()` and ints by `int()` |
| ConfigValidator.NumericError | config_validator.py:58-75 | an absent field is fine; an unconvertible one gives a type error; otherwise an error appears iff the value is outside the inclusive range |
| ConfigValidator.NumericErrors | config_validator.py:58-75 | the errors are exactly the per-field errors |
| ConfigValidator.BoolErrors | config_validator.py:78-81 | an error appears iff `rebalance_enabled` is present and not a boolean |
| ConfigValidator.BadSymbols | config_validator.py:84-90 | an error names exactly each symbol that is not a non-empty string |
| ConfigValidator.ShortsErrors | config_validator.py:84-90 | shorts must be a non-empty list of non-empty strings |
| ConfigValidator.PyLe | config_validator.py:93-95 | numbers compare numerically and strings lexicographically; other mixes raise |
| ConfigValidator.Ordered | config_validator.py:93-95 | the chained comparison low ≤ target ≤ high short-circuits as Python's does |
| ConfigValidator.RatioErrors | config_validator.py:93-95 | with all three ratios present, an ordering error appears iff they are out of order, and a comparison that raises propagates |
| ConfigValidator.DelayErrors | config_validator.py:114-126 | each present delay must be an integer from 1 to 30 |
| ConfigValidator.ApiDelayErrors | config_validator.py:114-126 | the delays must form an object; each listed field is checked |
| ConfigValidator.TelegramErrors | config_validator.py:129-137 | the token must be a string containing ':' and the chat id an integer |
| ConfigValidator.ValidationErrors | config_validator.py:21-148 | undefined iff the three ratios are present and their comparison raises; the list is empty iff the config has every required field, hex keys, in-range numbers, a boolean flag, a good shorts list, ordered ratios, good API delays and a good telegram section |
| ConfigValidator.SectionsEmptyIffWellFormed | config_validator.py:21-148 | every section reports nothing iff the config is well formed in that section's sense |
| ConfigValidator.ValidateConfig | config_validator.py:139-157 | valid iff the error list is empty; invalid means a non-empty list, and validate_and_raise raises |
| ConfigValidator.ValidSectionsEmpty | config_validator.py:150-157 | a config that passes has no error in any section |
| ConfigValidator.RequiredPresent | config_validator.py:31-46 | no missing-field error means every required field is present |
| ConfigValidator.ValidConfigShape | config_validator.py:150-157 | a config that passes has hex keys, in-range numbers, a good shorts list and ordered ratios |
| ConfigValidator.ValidLeverages | config_validator.py:58-75 | a config that passes has both leverages as integers from 1 to 50 |
| ConfigValidator.OutOfRangeReported | config_validator.py:58-75 | a convertible out-of-range value is reported as out of range, never as a type error |
| ConfigValidator.NeverUnconvertible | config_validator.py:58-75 | a convertible value is never reported as unconvertible |
| ConfigValidator.SpecFieldsDistinct | config_validator.py:58-75 | the numeric checks name distinct fields |
| ConfigManager.Load | config_manager.py:16-37 | the manager loads iff the document was read and passes validation, and it keeps the document |
| ConfigManager.GetValue | config_manager.py:50-52 | a present key reads its value; an absent key reads the default |
| ConfigManager.SetValue | config_manager.py:54-56 | setting adds the key and keeps all other keys |
| ConfigManager.GetAfterSet | config_manager.py:50-56 | a value set is read back, and every other key reads as before |
| ConfigManager.Indexed | config_manager.py:58-66 | `account_address` and `secret_key` are present iff their key is in the config, and are its value; otherwise KeyError |
| ConfigManager.Read | config_manager.py:68-126 | each accessor reads its key, with ratio target stored as `ratio_tgt`, and falls back to its documented default |
| ConfigManager.SettingsIndependent | config_manager.py:68-126 | setting one accessor's key leaves every other accessor unchanged |
| ConfigManager.AllSymbols | config_manager.py:78-81 | BTC followed by the shorts; raises unless the shorts are a list |
| ConfigManager.IsValid | config_manager.py:128-131 | raises iff validation raises; true iff the current document is well formed |
| ConfigManager.LoadedIsValid | config_manager.py:16-37 | a manager that loaded reports itself valid |
| ConfigManager.SetUncheckedKeepsValidity | config_manager.py:54-56 | setting a key the validator never reads keeps the validity verdict |
| ConfigManager.LoadedConfigIsUsable | config_manager.py:16-37 | a loaded manager has BTC plus at least one non-empty short, and both leverages convert to integers from 1 to 50 |
| Network.NewRetryConfig | network_utils.py:17-29 | construction fails iff an unknown keyword is passed; no arguments give the defaults |
| Network.ArgSetsField | network_utils.py:17-29 | a keyword passed once sets its field |
| Network.PresetsBuild | network_utils.py:182-184 | the three preset configurations build with the given fields and defaults elsewhere |
| Network.ModuleConfigsAsWrittenRaise | network_utils.py:187-201 | as written: both preconfigured instances pass unknown keywords and fail at import |
| Network.ModuleConfigsBuild | network_utils.py:187-201 | corrected: both instances build, with the multiplier as the exponential base |
| Network.CappedDelay | network_utils.py:31-34 | the delay never exceeds the cap, is either the cap or the uncapped value, and is the uncapped value when that fits |
| Network.GetDelay | network_utils.py:31-39 | without jitter, the capped delay; with jitter, between half of it and all of it |
| Network.JitterBounds | network_utils.py:36-37 | the jitter factor keeps a delay within [0.5, 1]× its value |
| Network.DelaysGrow | network_utils.py:31-39 | without jitter, delays never shrink from one attempt to the next |
| Network.RetryFrom | network_utils.py:56-75 | every call before the last failed with an expected error; the run stops at the first success, an unexpected error or the last attempt; one sleep of the scheduled delay between attempts |
| Network.WithRetry | network_utils.py:42-82 | at most max_retries + 1 calls and one fewer sleeps; the result is the last call's value, or its error re-raised |
| Network.FirstSuccessReturned | network_utils.py:56-58 | the first success is returned after exactly that many calls |
| Network.UnexpectedNotRetried | network_utils.py:56-67 | an error of an unexpected type propagates after one call and no sleep |
| Network.AllFailuresExhaustRetries | network_utils.py:56-75 | when every call fails, all max_retries + 1 calls are made with max_retries sleeps, and the last error is re-raised |
| Network.ChangePercent | network_utils.py:110 | the change percent times the previous price is 100·abs(price − previous) |
| Network.ValidatePrice | network_utils.py:99-116 | accepted iff within [min, max] and not a jump above the limit from a positive previous price; the price is remembered only on acceptance |
| Network.GetLastPrice | network_utils.py:118-120 | present iff the symbol has an accepted price |
| Network.AcceptedPriceRemembered | network_utils.py:114-120 | an accepted price is read back as the last price, and accepting it again succeeds |
| Network.AcceptedMoveBounded | network_utils.py:109-112 | an accepted price moved from a positive previous price by at most the allowed percent |
| Network.Call | network_utils.py:140-178 | while open and before the timeout, the call raises without invoking; success resets the count and closes; an expected error increments the count, stamps the failure time read after the call and opens at the threshold; any other error changes nothing |
| Network.CallPreservesValid | network_utils.py:140-178 | every call keeps the breaker's invariant: a breaker that is not closed has a recorded failure time and a count at or above the threshold |
| Network.HalfOpenFailureReopens | network_utils.py:143-147 | a failed trial call after the timeout reopens the breaker |
| Network.FailuresOpen | network_utils.py:172-178 | n expected failures from a fresh breaker count n and open exactly at the threshold |
| PerformanceMonitor.SuccessRate | performance_monitor.py:26-28 | rate times calls is 100·successes; 0 with no calls |
| PerformanceMonitor.AvgLatency | performance_monitor.py:31-33 | average times calls is the total latency; 0 with no calls |
| PerformanceMonitor.RecentAvgLatency | performance_monitor.py:36-40 | average times count is the sum of recent latencies; 0 when empty |
| PerformanceMonitor.Keep | performance_monitor.py:23 | the recent buffer grows to at most 100 and its last entry is the new duration |
| PerformanceMonitor.RecordLatency | performance_monitor.py:76-87 | one more call, total latency grows by the duration, max and min are updated, success counts unchanged |
| PerformanceMonitor.RecordAllTotals | performance_monitor.py:78-81 | after any run of durations, calls = their count and total latency = their sum |
| PerformanceMonitor.RecordAllMax | performance_monitor.py:84-85 | the max latency is at least every duration, and is 0 or one of them |
| PerformanceMonitor.RecordAllMin | performance_monitor.py:86-87 | the min latency is at most every duration and is one of them; none before any call |
| PerformanceMonitor.RecordAllRecentLength | performance_monitor.py:82 | the recent buffer (a deque of maxlen 100) holds min(count, 100) durations |
| PerformanceMonitor.RecordAllRecent | performance_monitor.py:82 | the recent buffer (a deque of maxlen 100) is exactly the last min(count, 100) durations |
| PerformanceMonitor.TotalPnl | performance_monitor.py:54-56 | total PnL = unrealized + realized |
| PerformanceMonitor.TrackPnl | performance_monitor.py:112-123 | sets the values, counts the update, widens the extremes |
| PerformanceMonitor.PnlExtremes | performance_monitor.py:44-49 | after any updates, max ≥ 0, min ≤ 0, and every value seen lies between them |
| PerformanceMonitor.Metrics | performance_monitor.py:78 | an operation never tracked reads fresh metrics |
| PerformanceMonitor.Reset | performance_monitor.py:196-204 | all counters, operations and PnL metrics are zeroed |
| PerformanceMonitor.TrackLatency | performance_monitor.py:76-89 | only that operation's metrics and the API call count change |
| PerformanceMonitor.TrackSuccess | performance_monitor.py:97-105 | exactly one of successes or failures grows, a failure also counts an error; every other operation, the operation's call and latency fields, and every other counter are unchanged |
| PerformanceMonitor.OutcomesAccountForCalls | performance_monitor.py:76-105 | recording a latency and then an outcome keeps successes + failures equal to the call count, one more call and one more success iff it succeeded |
| PerformanceMonitor.MonitorPnl | performance_monitor.py:112-123 | only the PnL metrics change, as `track_pnl` sets them |
| PerformanceMonitor.OrderPlaced | performance_monitor.py:127-129 | the orders counter grows by one and nothing else changes |
| PerformanceMonitor.RebalanceExecuted | performance_monitor.py:132-134 | the rebalances counter grows by one and nothing else changes |
| PositionProvider.PositionInfos | position_provider.py:41-46 | a failed read raises; a missing `assetPositions` reads as no positions; otherwise it reads iff the list can be iterated and every `position` is a dict, and the records are those dicts in order |
| PositionProvider.CoinOf | position_provider.py:47-49 | a record has a coin iff it names a non-empty string |
| PositionProvider.Number | position_provider.py:48-50 | a missing field reads as 0.0 |
| PositionProvider.ParseLeverage | position_provider.py:88-95 | a falsy leverage is 1.0, a dict without `value` is 1.0, a scalar converts by `float()` |
| PositionProvider.SizeRecord | position_provider.py:45-50 | a record without a coin is skipped; otherwise its coin maps to float(szi), zero included |
| PositionProvider.FetchedPositions | position_provider.py:45-50 | every named coin maps to the size of its last record |
| PositionProvider.FetchedKeysAreCoins | position_provider.py:45-50 | the keys are exactly the coins named in the records |
| PositionProvider.GetPositions | position_provider.py:31-68 | a fresh non-empty cache is served; an error gives {} and leaves the cache; otherwise the fetched map is returned and cached |
| PositionProvider.InvalidatePositions | position_provider.py:141-144 | the cache is emptied |
| PositionProvider.InvalidateForcesFetch | position_provider.py:141-144 | after invalidation the next read fetches |
| PositionProvider.FetchedPositionsServedWithinTtl | position_provider.py:27-39 | a non-empty fetch is served from the cache for 5 seconds |
| PositionProvider.DetailRecord | position_provider.py:79-104 | a record without a coin is skipped; one whose numbers do not convert raises; an open position is listed with its size, PnL, margin and parsed leverage, and a closed one is skipped |
| PositionProvider.GetPositionDetails | position_provider.py:70-113 | every listed position is open; a failed read or a record that raises gives []; otherwise a position is listed iff some record lists it |
| PositionProvider.DetailsAgreeWithPositions | position_provider.py:79-104 | the listed coins are among the fetched positions, and every open fetched position is listed with the same size |
| PositionProvider.MarginSummary | position_provider.py:121 | a missing margin summary reads as empty |
| PositionProvider.SummaryOf | position_provider.py:123-128 | the summary exists iff all four fields convert, and each field is its converted value |
| PositionProvider.GetAccountSummary | position_provider.py:115-139 | an error gives no summary; otherwise a summary exists iff the margin summary is a dict whose four fields convert, and each field is its converted value |
| PositionProvider.MissingSummaryIsZero | position_provider.py:121-128 | a state without a margin summary gives all four fields as 0.0 |
| MarketData.PriceOf | market_data_provider.py:48-54 | a missing, null, empty or zero raw price is 0.0; otherwise float(raw) |
| MarketData.FetchPrices | market_data_provider.py:45-55 | the fetch fails iff the read fails or some price does not convert; the keys are exactly the requested symbols |
| MarketData.GetPrices | market_data_provider.py:32-67 | a hit needs a fresh non-empty cache holding every symbol and returns exactly the requested ones; a failure gives 0.0 everywhere and keeps the cache; a fetch is merged into the cache |
| MarketData.FetchKeepsOtherPrices | market_data_provider.py:57 | a fetch keeps cached prices of other symbols |
| MarketData.FetchedPricesServedWithinTtl | market_data_provider.py:37-42 | after a fetch, any subset is served from the cache for 10 seconds |
| MarketData.FundingOf | market_data_provider.py:84-95 | the rate is float of the last record's `fundingRate`; 0.0 when it is missing or does not convert, with no records, a non-dict last record or a failure |
| MarketData.GetFundingRates | market_data_provider.py:69-107 | a hit returns cached rates; otherwise each symbol gets its own rate, merged into the cache; the timestamp is never refreshed |
| MarketData.FundingFailureIsLocal | market_data_provider.py:83-95 | a failure for one symbol does not change another symbol's rate |
| MarketData.InvalidateMarket | market_data_provider.py:126-130 | both caches are emptied |
| MarketData.InvalidateForcesPriceFetch | market_data_provider.py:126-130 | after invalidation neither cache can serve |
| AssetMetadata.AssetName | asset_metadata.py:47-48 | a record is named iff its name is a non-empty string |
| AssetMetadata.AssetEntry | asset_metadata.py:49-54 | an entry has exactly the four fields szDecimals, szStep, maxLeverage, onlyIsolated |
| AssetMetadata.AssetRecord | asset_metadata.py:46-54 | a non-dict record raises; an unnamed one is skipped; a named one gives its entry |
| AssetMetadata.Normalise | asset_metadata.py:46-54 | the universe normalises iff every record is a dict |
| AssetMetadata.NormaliseKeys | asset_metadata.py:46-54 | the keys are exactly the names in the universe |
| AssetMetadata.NormaliseEntries | asset_metadata.py:49-54 | every entry has the four fields and never `minSz` |
| AssetMetadata.NormaliseLastWins | asset_metadata.py:46-54 | a repeated name keeps the entry of its last record |
| AssetMetadata.GetAssetMeta | asset_metadata.py:23-65 | a fresh non-empty unforced cache is served; an invalid response or an error returns the previous cache and keeps it; otherwise the normalised map is returned and cached |
| AssetMetadata.FetchedMapServedWithinTtl | asset_metadata.py:27-30 | a non-empty fetch is served from the cache for 300 seconds |
| AssetMetadata.NormalisedEntrySizing | asset_metadata.py:49-54 | an entry built without sizing fields gives minSz = step = 10^−6 and 6 decimals |
| AssetMetadata.DefaultEntryFields | asset_metadata.py:50-51 | the defaults are szDecimals 6 and szStep "0.000001" |
| AssetMetadata.DefaultStepValue | asset_metadata.py:51 | the default step string parses to 10^−6 |
| AssetMetadata.Field | asset_metadata.py:67-85 | an unknown symbol reads the default; a known symbol with the field reads that field |
| AssetMetadata.SizeDecimals | asset_metadata.py:72-75 | an unknown symbol gives 6 |
| AssetMetadata.SizeStep | asset_metadata.py:77-80 | an unknown symbol gives "0.000001" |
| AssetMetadata.MaxLeverage | asset_metadata.py:82-85 | an unknown symbol gives 50 |
| AssetMetadata.AccessorsReadLastRecord | asset_metadata.py:67-85 | each accessor reads the last record's field, or its default |
| AssetMetadata.Provider | asset_metadata.py:92-97 | the first call creates the provider; later calls return the same one |
| AssetMetadata.ProviderIsShared | asset_metadata.py:92-97 | calling the accessor again returns the same instance |
| StateManager.Strings | state_manager.py:87 | a list of symbols is accepted iff every item is a string |
| StateManager.InitSymbols | state_manager.py:87 | defined iff the shorts (default []) are a list of strings; then BTC followed by exactly the shorts, in order |
| StateManager.InitSymbolsAreAllSymbols | state_manager.py:87 | the ledger is initialised for the symbols `all_symbols` lists (config_manager.py:78-81), and fails wherever that raises |
| StateManager.ZeroPositions | state_manager.py:88 | every symbol gets position 0.0 |
| StateManager.EmptyFunding | state_manager.py:94 | every symbol gets an empty funding list |
| StateManager.EmptyState | state_manager.py:149-157 | positions at 0.0 and empty funding lists for exactly BTC and the configured shorts; every history empty; fails iff the symbols cannot be built |
| StateManager.NavStep | state_manager.py:78-81 | a NAV record loads iff it has date and nav |
| StateManager.CommissionDefaults | state_manager.py:104-114 | missing optional fields become None, and nav_after_commission becomes 0.0 |
| StateManager.CommissionOf | state_manager.py:104-116 | a record loads iff it is a dict with every required field and no unknown field; the optional fields take their defaults |
| StateManager.FundingDefaults | state_manager.py:126-130 | a missing funding_usd becomes None and a missing endTime becomes the time (or 0) |
| StateManager.FundingOf | state_manager.py:124-132 | a record loads iff it is a dict with the required fields and no unknown field; endTime defaults to time |
| StateManager.LoadRecords | state_manager.py:100-135 | the record list loads iff the stored value can be iterated |
| StateManager.LoadDocument | state_manager.py:71-138 | loads iff the document is a dict, every NAV record has date and nav, the symbols can be built when positions or funding history is empty, and both record lists can be iterated; the NAV history is those records; empty positions or funding history are initialised for BTC and the shorts; other fields are kept; record lists keep only the records that load |
| StateManager.LoadState | state_manager.py:71-147 | a readable document loads and reports true; otherwise the empty state, reporting false |
| StateManager.MalformedCommissionSkipped | state_manager.py:117-119 | a malformed commission record leaves the whole load unchanged |
| StateManager.MalformedRecordSkipped | state_manager.py:117-119 | a malformed commission record is skipped without aborting the list |
| StateManager.OldCommissionBackfilled | state_manager.py:104-114 | a record with only the required fields gets None and 0.0 defaults |
| StateManager.OldFundingEndsAtItsTime | state_manager.py:126-130 | a funding record without endTime ends at its time, with no USD amount |
| StateManager.CollectImages | state_manager.py:159-168 | loading what was saved gives back the records, for any record type |
| StateManager.SavedRecordsReload | state_manager.py:159-168 | every saved commission and funding record loads back unchanged |
| StateManager.CommissionReloads | state_manager.py:167 | a saved commission record loads back unchanged |
| StateManager.SavedCommissionKeys | state_manager.py:167 | a saved commission record carries exactly the required and optional fields |
| StateManager.FundingReloads | state_manager.py:168 | a saved funding record loads back unchanged |
| StateManager.SaveLoadRoundTrip | state_manager.py:71-179 | saving a ledger with non-empty positions and funding history and loading it gives the same ledger |
| StateManager.SavedFields | state_manager.py:162-169 | the saved document holds each field of the ledger |
| StateManager.NavReload | state_manager.py:78-81 | saved NAV records load back unchanged |
| StateManager.RecordsReload | state_manager.py:100-135 | saved record lists load back unchanged |
| StateManager.AddNavRecord | state_manager.py:181-187 | one record is appended and nothing else changes |
| StateManager.GetLastNav | state_manager.py:230-232 | the last record's nav, else the config's start_nav, default 100.0 |
| StateManager.LastNavIsLatestRecord | state_manager.py:230-232 | after adding a NAV, the last NAV is that value |
| StateManager.UpdatePositions | state_manager.py:189-191 | the given keys are overwritten, others keep their values, nothing else changes |
| StateManager.AddFundingRates | state_manager.py:193-197 | only tracked symbols get the rate appended, others keep their lists, the key set is unchanged |
| StateManager.UntrackedRatesIgnored | state_manager.py:195-196 | a rate for an untracked symbol adds no symbol |
| StateManager.GetOpenPositions | state_manager.py:234-236 | keeps exactly the entries with abs(size) > 1e-8, with their values |
| StateManager.UpdatedPositionOpenIffAboveDust | state_manager.py:234-236 | after an update, a given symbol is open iff its new size is above 1e-8 |
| StateManager.EndTimes | state_manager.py:242 | reads every endTime as a number |
| StateManager.MaxOf | state_manager.py:242 | the maximum is at least every element and is one of them |
| StateManager.GetLastFundingTime | state_manager.py:238-242 | 0 with no records; otherwise the largest endTime, which is one of the records' |
| StateManager.AddIfTruthy | state_manager.py:248-249 | a falsy amount adds nothing; a truthy one is added |
| StateManager.TotalCommissionUsd | state_manager.py:244-250 | raises iff some truthy commission amount is not a number; otherwise the total of the truthy amounts |
| StateManager.TotalFundingUsd | state_manager.py:252-258 | raises iff some truthy funding amount is not a number; otherwise the total of the truthy amounts |
| StateManager.UsdSumSkipsFalsy | state_manager.py:244-258 | the total is the sum of the truthy amounts |
| StateManager.UsdSumRaises | state_manager.py:244-258 | the sum raises iff some truthy amount is not a number |
| StateManager.NullCommissionNotCounted | state_manager.py:248-249 | a None or 0 amount leaves the total unchanged |

## Left out

- Sleeps: every sleep is a `Wait`/`Tick` event, not real time. The clock is the `now` parameter, and the jitter draw is a parameter in [0, 1).
- PositionProvider.GetPositions, MarketData.GetPrices: the clock read for the TTL check and the one for the cache stamp (position_provider.py:29 and :54; market_data_provider.py:30 and :58) are merged into one `now`.
- OrderExecutor.InterpretOrderReply: replies are assumed well shaped. A malformed reply (a non-dict status or `resting`), which the source turns into a failure through its `except` (order_executor.py:91), is not expressible.
- Venue and SDK calls: each reply is an input. The Hyperliquid `Exchange`/`Info` objects and the account keys are not part of this model.
- Logging and reporting: log messages, duration strings and the session log file are not modelled. Neither are `get_metrics`, `log_performance_summary` (performance_monitor.py:137-194), `get_summary` (state_manager.py:260-269) and the every-10-cycles summary in the main loop.
- File I/O: JSON file reads and writes (`_load_config`, `save_state`'s write, `save_config`) are not modelled. A read is an `Option` input, and `save_state` is modelled as the document it writes.
- Signals: the stop signal is modelled as the number of flag checks after which the flag reads false. A run that is never signalled, and KeyboardInterrupt, are not modelled.
- Trader.MainLoop: models only runs that end, because the loop is bounded by the signal count. The every-10-cycles summary and cleanup's own exception are not modelled.
- `update_leverage` (risk_manager.py:34-55): modelled only as its reply being ok (`StatusOk`). Its logging and its exception are folded into the reply.
- `_validate_order_size` (risk_manager.py:497-518): the code is the same as `validate_order_size`, so `OrderExecutor.ValidateOrderSize` models both.
- `get_position_details_with_leverage` (risk_manager.py:437-495): modelled as the BTC/shorts margin split that the status uses (`RiskManager.MarginSplit`), including the raise when the margin summary or a record does not convert. Its per-position detail dict and the summary fields it copies are not returned by the model.
- Trader.PortfolioStatus: covers the derived fields only. The performance metrics, the leverage details and the status's exception path (which returns {}) are not modelled.
- `get_funding_history` (market_data_provider.py:109-124): a pass-through of the venue reply, with [] on error. It is not modelled.
- `add_commission_record` and `add_funding_records` (state_manager.py:199-228): plain appends stamped with the clock. They are not modelled.
- The preset retry configurations are modelled only as far as the finding below needs.
- Coin and name values in venue records: a truthy value that is not a string (a number used as a coin) is treated as absent, because the model's keys are strings.
- StateManager.InitSymbols: a short that is not a string fails initialisation in the model (the load then raises), whereas Python keys the new dicts by any hashable value, because the model's keys are strings.
- `float()` on strings: parses plain decimals only. Exponents, whitespace, underscores, "nan" and "inf" are not accepted, and converting an integer string is exact.
- `int()` on floats: truncates toward zero, as Python does. Integer overflow does not arise in Python and is not modelled.
- RiskManager.CheckLeverageCompliance, RiskManager.ForceLeverageCompliance: only integer-valued required leverages are modelled. The source passes the raw config value (config_manager.py:108-116, strategy.py:285-297), which the validator accepts whenever `int()` converts it. A fractional value such as 3.5 is compared and sent as 3.5, and a string such as "3" makes the compliance check raise and return {}, which counts as compliant; neither is expressible here.
- `int()` on strings: accepts only an optional sign and digits. The surrounding whitespace and digit-separating underscores Python also accepts are not.
- ConfigValidator.PyLe: compares numbers and strings. Comparisons between lists or other mixed types are treated as raising.
- StateManager.AddFundingRates: when some tracked symbol's history is not a list, Python appends to the earlier symbols before raising. The model returns no ledger at all.
- StateManager.GetLastFundingTime: only numeric endTime values are modelled. Python's `max` over strings is not.
- IEEE-754 rounding is not modelled: arithmetic is exact on `real`.
- `main.py`, `telegram_bot.py`, `logger_config.py`, `exceptions.py` and `interfaces.py` are not part of this model. They are presentation, chat front end, log plumbing, and classes with no behaviour. `OrderResult` and `PositionInfo` appear only as record shapes.

## Findings

| source | as written | input that shows it | evidently intended | confidence | as-written member | corrected member |
|---|---|---|---|---|---|---|
| network_utils.py:187-201 | `default_retry_config` and `api_retry_config` pass `backoff_multiplier` and `timeout`, which `__init__` (network_utils.py:17-24) does not accept, so building them raises TypeError at import | the module's own arguments: max_retries=3, base_delay=1.0, max_delay=10.0, backoff_multiplier=2.0, timeout=30.0 | build the configs, with the multiplier as the exponential base | not executed | Network.ModuleConfigsAsWrittenRaise | Network.ModuleConfigsBuild |
