/** The trader (trader.py): the loop that runs a strategy cycle, saves the
    ledger and sleeps in one-second ticks until a signal clears its run flag,
    the operation tracker around each cycle, the forced rebalance and the
    derived fields of the status report. The clock, the signal and the
    components' answers are inputs. */
module Trader {
  import opened Util
  import opened PerformanceMonitor
  import opened Strategy
  import RiskManager
  import Json

  const CycleOp: string := "trading_cycle"
  const FullCycleOp: string := "full_cycle"

  // ---------------------------------------------------------------------
  // The operation tracker and one trading cycle.

  /** `_track_operation` on leaving the block: the latency is always recorded,
      and the block counts as a success iff it did not raise. */
  function TrackOperation(m: Monitor, op: string, duration: real, raised: bool): (r: Monitor)
    requires Valid(m)
    ensures Valid(r) && r.ops.Keys == m.ops.Keys + {op}
    ensures var before := Metrics(m, op); var after := r.ops[op];
            && after.totalCalls == before.totalCalls + 1
            && after.totalLatency == before.totalLatency + duration
            && (after.successfulCalls == before.successfulCalls + 1 <==> !raised)
            && (after.failedCalls == before.failedCalls + 1 <==> raised)
            && after.successfulCalls + after.failedCalls == before.successfulCalls + before.failedCalls + 1
    ensures r.errorsCount == m.errorsCount + (if raised then 1 else 0)
    ensures forall o :: o in m.ops && o != op ==> r.ops[o] == m.ops[o]
  {
    var m1 := TrackLatency(m, op, duration);
    TrackSuccess(m1, op, !raised)
  }

  /** What `run_trading_cycle` did: its result, whether it saved the ledger,
      and the monitor afterwards. */
  datatype TradingCycleRun = TradingCycleRun(ok: bool, saved: bool, monitor: Monitor)

  /** `run_trading_cycle`. `m` is the monitor once the strategy cycle has
      finished, `cycle` what that cycle did (returned a flag or raised), and
      the durations come from the clock. `save_state` catches its own errors,
      so it cannot raise here. */
  function RunTradingCycle(m: Monitor, cycle: Outcome, opDuration: real, cycleDuration: real): (r: TradingCycleRun)
    requires Valid(m)
    ensures Valid(r.monitor)
    ensures r.saved <==> cycle.Returned?
    ensures r.ok <==> cycle == Returned(true)
    ensures cycle.Returned? ==> FullCycleOp in r.monitor.ops
                                && r.monitor.errorsCount == m.errorsCount
    ensures cycle.Threw? ==> r.monitor.errorsCount == m.errorsCount + 2
    ensures CycleOp in r.monitor.ops
            && r.monitor.ops[CycleOp].totalCalls == Metrics(m, CycleOp).totalCalls + 1
  {
    var tracked := TrackOperation(m, CycleOp, opDuration, cycle.Threw?);
    match cycle
    case Threw => TradingCycleRun(false, false, TrackSuccess(tracked, CycleOp, false))
    case Returned(ok) => TradingCycleRun(ok, true, TrackLatency(tracked, FullCycleOp, cycleDuration))
  }

  /** A cycle that raises would be counted as failed twice: once by the
      tracker and once by the handler. The program never takes this path:
      the strategy cycle catches every exception and returns False, and
      `save_state` catches its own errors. */
  lemma ThrownCycleCountedTwice(m: Monitor, opDuration: real, cycleDuration: real)
    requires Valid(m)
    ensures var r := RunTradingCycle(m, Threw, opDuration, cycleDuration);
            r.monitor.ops[CycleOp].failedCalls == Metrics(m, CycleOp).failedCalls + 2
            && r.monitor.ops[CycleOp].successfulCalls == Metrics(m, CycleOp).successfulCalls
  {
    var t := TrackOperation(m, CycleOp, opDuration, true);
    var before := Metrics(m, CycleOp);
    assert t.ops[CycleOp].failedCalls == before.failedCalls + 1;
    assert t.ops[CycleOp].successfulCalls == before.successfulCalls;
    var u := TrackSuccess(t, CycleOp, false);
    assert Metrics(t, CycleOp) == t.ops[CycleOp];
    assert u.ops[CycleOp].successfulCalls == t.ops[CycleOp].successfulCalls;
  }

  /** A cycle that returns is counted once as a success, whatever flag it
      returned. */
  lemma ReturnedCycleCountedOnce(m: Monitor, ok: bool, opDuration: real, cycleDuration: real)
    requires Valid(m)
    ensures var r := RunTradingCycle(m, Returned(ok), opDuration, cycleDuration);
            r.monitor.ops[CycleOp].successfulCalls == Metrics(m, CycleOp).successfulCalls + 1
            && r.monitor.ops[CycleOp].failedCalls == Metrics(m, CycleOp).failedCalls
  {
    var t := TrackOperation(m, CycleOp, opDuration, false);
    assert FullCycleOp != CycleOp;
    var u := TrackLatency(t, FullCycleOp, cycleDuration);
    assert u.ops[CycleOp] == t.ops[CycleOp];
  }

  // ---------------------------------------------------------------------
  // The main loop.

  /** The run flag as the loop reads it. The signal handler only clears the
      flag, so it reads True at the first `signalAfter` checks and False
      from then on; a cycle in progress is never cut short. */
  predicate Running(signalAfter: nat, check: nat)
  {
    check < signalAfter
  }

  /** The inter-cycle sleep from its `i`-th tick on, starting at flag check
      `c`: the ticks slept and the index of the next flag check. */
  function SleepTicks(duration: nat, signalAfter: nat, c: nat, i: nat): (r: (nat, nat))
    requires i <= duration
    decreases duration - i
    ensures r.0 == if c + (duration - i) <= signalAfter then duration - i
                   else if c <= signalAfter then signalAfter - c else 0
    ensures r.1 == if r.0 == duration - i then c + r.0 else c + r.0 + 1
  {
    if i == duration then (0, c)
    else if !Running(signalAfter, c) then (0, c + 1)
    else
      var rest := SleepTicks(duration, signalAfter, c + 1, i + 1);
      (rest.0 + 1, rest.1)
  }

  datatype Event = CycleRan(index: nat, outcome: Outcome) | Tick | Cleanup

  function Ticks(n: nat): (r: seq<Event>)
    ensures |r| == n && forall i :: 0 <= i < n ==> r[i] == Tick
  {
    seq(n, i => Tick)
  }

  /** How the loop ended: `cycles` cycles run, the next unused flag check,
      and whether an exception ended it. */
  datatype LoopRun = LoopRun(events: seq<Event>, cycles: nat, checks: nat, raised: bool)

  /** `run_main_loop` from the `while` test at flag check `c`, before cycle
      `n`. `outcome(n)` is what cycle `n` did: returned a flag or raised out
      of the loop body. The `if self.running` test after a cycle is check
      `c + 1`, and the sleep's checks follow it. */
  function Loop(duration: nat, signalAfter: nat, outcome: nat -> Outcome, c: nat, n: nat): (r: LoopRun)
    decreases signalAfter - c
    ensures r.cycles >= n
    ensures !Running(signalAfter, c) ==> r.cycles == n && !r.raised
    ensures r.raised ==> r.cycles > n && outcome(r.cycles - 1) == Threw
    ensures !r.raised ==> r.checks > signalAfter
    ensures forall i :: n <= i < r.cycles - 1 ==> outcome(i).Returned?
    ensures !r.raised ==> forall i :: n <= i < r.cycles ==> outcome(i).Returned?
  {
    if !Running(signalAfter, c) then LoopRun([], n, c + 1, false)
    else match outcome(n)
      case Threw => LoopRun([CycleRan(n, Threw)], n + 1, c + 1, true)
      case Returned(ok) =>
        var slept := if Running(signalAfter, c + 1) then SleepTicks(duration, signalAfter, c + 2, 0) else (0, c + 2);
        var rest := Loop(duration, signalAfter, outcome, slept.1, n + 1);
        LoopRun([CycleRan(n, Returned(ok))] + Ticks(slept.0) + rest.events, rest.cycles, rest.checks, rest.raised)
  }

  /** `run_main_loop` followed by `cleanup` (which saves the ledger) in its
      `finally`. */
  function MainLoop(duration: nat, signalAfter: nat, outcome: nat -> Outcome): (r: LoopRun)
    ensures |r.events| > 0 && r.events[|r.events| - 1] == Cleanup
    ensures r.raised <==> exists i :: 0 <= i < r.cycles && outcome(i) == Threw
    ensures !r.raised ==> r.checks > signalAfter
    ensures signalAfter > 0 ==> r.cycles > 0
  {
    var run := Loop(duration, signalAfter, outcome, 0, 0);
    run.(events := run.events + [Cleanup])
  }

  /** Whether a cycle returned True or False makes no difference to the loop:
      only a raised exception or the signal ends it. */
  lemma {:induction false} FailedCycleContinues(duration: nat, signalAfter: nat, outcome: nat -> Outcome,
                                                 other: nat -> Outcome, c: nat, n: nat)
    requires forall i :: outcome(i).Threw? == other(i).Threw?
    ensures var a := Loop(duration, signalAfter, outcome, c, n);
            var b := Loop(duration, signalAfter, other, c, n);
            a.cycles == b.cycles && a.checks == b.checks && a.raised == b.raised
    decreases signalAfter - c
  {
    if Running(signalAfter, c) && outcome(n).Returned? {
      var slept := if Running(signalAfter, c + 1) then SleepTicks(duration, signalAfter, c + 2, 0) else (0, c + 2);
      FailedCycleContinues(duration, signalAfter, outcome, other, slept.1, n + 1);
    }
  }

  /** The number of periods of `q` flag checks needed to cover `rem` checks. */
  function CeilDiv(rem: int, q: nat): (k: nat)
    requires q > 0
    decreases rem
  {
    if rem <= 0 then 0 else 1 + CeilDiv(rem - q, q)
  }

  /** `CeilDiv` is the ceiling of rem / q: the fewest periods that cover `rem`. */
  lemma {:induction false} CeilDivIsCeiling(rem: int, q: nat)
    requires q > 0
    ensures CeilDiv(rem, q) * q >= rem
    ensures CeilDiv(rem, q) == 0 || (CeilDiv(rem, q) - 1) * q < rem
    decreases rem
  {
    if rem > 0 {
      CeilDivIsCeiling(rem - q, q);
      var k := CeilDiv(rem - q, q);
      assert (k + 1) * q == k * q + q;
      if k > 0 {
        assert k * q == (k - 1) * q + q;
      }
    }
  }

  /** No cycle raises. */
  ghost predicate NeverRaises(outcome: nat -> Outcome)
  {
    forall i :: outcome(i).Returned?
  }

  /** With no exception the loop runs one cycle per `duration + 2` flag
      checks until the signal. */
  lemma {:induction false} CyclesUntilSignal(duration: nat, signalAfter: nat, outcome: nat -> Outcome, c: nat, n: nat)
    requires outcome(n).Returned? && NeverRaises(outcome)
    requires c <= signalAfter
    ensures Loop(duration, signalAfter, outcome, c, n).cycles == n + CeilDiv(signalAfter - c, duration + 2)
    decreases signalAfter - c
  {
    if Running(signalAfter, c) {
      var next := LoopStep(duration, signalAfter, outcome, c, n);
      if next <= signalAfter {
        assert outcome(n + 1).Returned?;
        CyclesUntilSignal(duration, signalAfter, outcome, next, n + 1);
      } else {
        assert CeilDiv(signalAfter - c - (duration + 2), duration + 2) == 0;
      }
    }
  }

  /** One pass of the loop body from check `c`: the next `while` test is at
      `next`, a full period `duration + 2` on unless the signal came first,
      in which case the loop then stops. */
  lemma LoopStep(duration: nat, signalAfter: nat, outcome: nat -> Outcome, c: nat, n: nat) returns (next: nat)
    requires Running(signalAfter, c) && outcome(n).Returned?
    ensures Loop(duration, signalAfter, outcome, c, n).cycles == Loop(duration, signalAfter, outcome, next, n + 1).cycles
    ensures next <= signalAfter ==> next == c + duration + 2
    ensures next > signalAfter ==>
              (signalAfter - c <= duration + 2 && Loop(duration, signalAfter, outcome, next, n + 1).cycles == n + 1)
  {
    next := if Running(signalAfter, c + 1) then SleepTicks(duration, signalAfter, c + 2, 0).1 else c + 2;
  }

  /** The whole run: with no exception, `signalAfter` flag checks admit
      exactly ceil(signalAfter / (duration + 2)) cycles. */
  lemma CycleCount(duration: nat, signalAfter: nat, outcome: nat -> Outcome)
    requires NeverRaises(outcome)
    ensures var k := MainLoop(duration, signalAfter, outcome).cycles;
            && k * (duration + 2) >= signalAfter
            && (k == 0 || (k - 1) * (duration + 2) < signalAfter)
  {
    CyclesUntilSignal(duration, signalAfter, outcome, 0, 0);
    CeilDivIsCeiling(signalAfter, duration + 2);
  }

  // ---------------------------------------------------------------------
  // Forced rebalance.

  /** `force_rebalance`'s change to the decision: only the flag and the
      reason are overwritten. */
  function Force(d: RebalanceDecision): (r: RebalanceDecision)
    ensures r.shouldRebalance && r.reason == Forced
    ensures r.(shouldRebalance := d.shouldRebalance, reason := d.reason) == d
  {
    d.(shouldRebalance := true, reason := Forced)
  }

  /** `force_rebalance`: decide, force, execute; False when deciding or
      executing raises. */
  function ForceRebalance(p: StrategyParams, snap: Snapshot, prices: map<string, real>, m: Monitor,
                          place: OrderRequest -> bool): (r: (bool, RebalanceRun))
    ensures var pf := GetPortfolioState(p, snap);
            CalculateRebalanceDecision(p, pf).None? ==> !r.0 && r.1.orders == []
    ensures var pf := GetPortfolioState(p, snap);
            CalculateRebalanceDecision(p, pf).Some? ==>
              r.1 == ExecuteRebalance(p, Force(CalculateRebalanceDecision(p, pf).value), pf, prices, m, place)
              && (r.0 <==> r.1.outcome == Returned(true))
  {
    var pf := GetPortfolioState(p, snap);
    match CalculateRebalanceDecision(p, pf)
    case None => (false, RebalanceRun(Threw, [], m))
    case Some(d) =>
      var run := ExecuteRebalance(p, Force(d), pf, prices, m, place);
      (run.outcome == Returned(true), run)
  }

  /** A forced rebalance trades towards the same targets the strategy
      computed, and trades even when the portfolio is on target. */
  lemma ForcedKeepsTargets(p: StrategyParams, pf: PortfolioState)
    requires CalculateRebalanceDecision(p, pf).Some?
    ensures var d := CalculateRebalanceDecision(p, pf).value;
            && Force(d).btcTargetUsd == d.btcTargetUsd && Force(d).shortsTargetUsd == d.shortsTargetUsd
            && Force(d).btcCurrentUsd == d.btcCurrentUsd && Force(d).shortsCurrentUsd == d.shortsCurrentUsd
            && Force(d).deviationPercent == d.deviationPercent
            && Force(d).reason != d.reason
  {
  }

  // ---------------------------------------------------------------------
  // Portfolio status.

  /** The size report: `{"BTC": btc}` overlaid by the shorts map, keeping
      only sizes above dust. */
  function OpenPositions(btc: real, shorts: map<string, real>): (r: map<string, real>)
    ensures forall s :: s in r <==> (s in shorts && IsOpen(shorts[s])) || (s == Core && s !in shorts && IsOpen(btc))
    ensures forall s :: s in r ==> r[s] == (if s in shorts then shorts[s] else btc)
  {
    var all := map[Core := btc] + shorts;
    map s | s in all && IsOpen(all[s]) :: all[s]
  }

  /** `margin_ratio`: BTC margin over shorts margin, 0 when the shorts hold
      at most 1e-6 of margin. */
  function MarginRatio(btcMargin: real, shortsMargin: real): (r: real)
    ensures shortsMargin > 0.000001 ==> r * shortsMargin == btcMargin
    ensures shortsMargin <= 0.000001 ==> r == 0.0
    ensures btcMargin >= 0.0 ==> r >= 0.0
  {
    if shortsMargin > 0.000001 then
      DivMul(btcMargin, shortsMargin);
      btcMargin / shortsMargin
    else 0.0
  }

  datatype Status = Status(
    nav: real,
    navForTrading: real,
    reserveAmount: real,
    reservePercent: real,
    btcValueUsd: real,
    shortsValueUsd: real,
    openPositions: map<string, real>,
    btcMarginUsed: real,
    shortsMarginUsed: real,
    marginRatio: real,
    compliance: map<string, bool>)

  /** The derived fields of `get_portfolio_status`. `details` is the account
      document `get_position_details_with_leverage` reads; its margin split is
      read as zeros when that call returns `{}`. `prices` are the prices read
      for BTC and the shorts. Unlike the strategy, the status values BTC at
      its signed size and sums the shorts over the configured list. */
  function PortfolioStatus(pf: PortfolioState, reservePercent: real, shorts: seq<string>, prices: map<string, real>,
                           details: Option<map<string, Json.JsonValue>>, compliance: map<string, bool>): (r: Status)
    ensures StatusFields(r, pf, reservePercent, shorts, prices, RiskManager.MarginSplit(details), compliance)
  {
    StatusOf(pf, reservePercent, shorts, prices, RiskManager.MarginSplit(details), compliance)
  }

  /** What the status holds for a given margin split: nav for trading plus
      reserve is nav; BTC at its signed size; the shorts summed over the
      list; the open positions; a missing split read as zero margins and a
      zero ratio; and the ratio of the two margins above 1e-6 of shorts
      margin, else 0. */
  predicate StatusFields(r: Status, pf: PortfolioState, reservePercent: real, shorts: seq<string>,
                         prices: map<string, real>, split: Option<(real, real)>, compliance: map<string, bool>)
  {
    && r.navForTrading + r.reserveAmount == r.nav == pf.nav
    && r.reserveAmount == pf.nav * reservePercent
    && r.btcValueUsd == Notional(pf.btcPosition, GetReal(prices, Core, 0.0))
    && r.shortsValueUsd == ShortsValue(shorts, pf.shortsPositions, prices)
    && r.openPositions == OpenPositions(pf.btcPosition, pf.shortsPositions)
    && (split.None? ==> r.btcMarginUsed == 0.0 && r.shortsMarginUsed == 0.0 && r.marginRatio == 0.0)
    && (split.Some? ==> (r.btcMarginUsed, r.shortsMarginUsed) == split.value)
    && (r.shortsMarginUsed > 0.000001 ==> r.marginRatio * r.shortsMarginUsed == r.btcMarginUsed)
    && (r.shortsMarginUsed <= 0.000001 ==> r.marginRatio == 0.0)
    && r.compliance == compliance
  }

  /** The status record for a given margin split. */
  function StatusOf(pf: PortfolioState, reservePercent: real, shorts: seq<string>, prices: map<string, real>,
                    split: Option<(real, real)>, compliance: map<string, bool>): (r: Status)
    ensures StatusFields(r, pf, reservePercent, shorts, prices, split, compliance)
  {
    var m := if split.Some? then split.value else (0.0, 0.0);
    Status(pf.nav, pf.nav * (1.0 - reservePercent), pf.nav * reservePercent, reservePercent,
           Notional(pf.btcPosition, GetReal(prices, Core, 0.0)), ShortsValue(shorts, pf.shortsPositions, prices),
           OpenPositions(pf.btcPosition, pf.shortsPositions), m.0, m.1, MarginRatio(m.0, m.1), compliance)
  }

  /** The status recomputes what the strategy's portfolio state holds: with
      the same prices and a shorts list without repeats, both values agree,
      and when the two margin sources agree on a shorts margin above 1e-6 the
      status ratio is the strategy's position ratio. */
  lemma StatusAgreesWithPortfolio(p: StrategyParams, snap: Snapshot,
                                  details: Option<map<string, Json.JsonValue>>, compliance: map<string, bool>)
    requires forall i, j :: 0 <= i < j < |p.shorts| ==> p.shorts[i] != p.shorts[j]
    ensures var pf := GetPortfolioState(p, snap);
            var st := PortfolioStatus(pf, p.reservePercent, p.shorts, snap.prices, details, compliance);
            && st.btcValueUsd == pf.btcValueUsd
            && st.shortsValueUsd == pf.shortsValueUsd
            && (RiskManager.MarginSplit(details) == Some((pf.btcMargin, pf.shortsMargin)) && pf.shortsMargin > 0.000001 ==>
                  st.marginRatio == pf.positionRatio)
  {
    var pf := GetPortfolioState(p, snap);
    DistinctOfDistinct(p.shorts);
    forall s | s in p.shorts
      ensures GetReal(pf.shortsPositions, s, 0.0) == GetReal(snap.positions, s, 0.0)
    {
      assert s in pf.shortsPositions;
    }
    ShortsValueAgree(p.shorts, pf.shortsPositions, snap.positions, snap.prices);
  }

  /** The shorts value depends only on the positions of the listed symbols. */
  lemma {:induction false} ShortsValueAgree(symbols: seq<string>, a: map<string, real>, b: map<string, real>,
                                            prices: map<string, real>)
    requires forall s :: s in symbols ==> GetReal(a, s, 0.0) == GetReal(b, s, 0.0)
    ensures ShortsValue(symbols, a, prices) == ShortsValue(symbols, b, prices)
  {
    if |symbols| > 0 {
      var p := symbols[..|symbols| - 1];
      assert forall s :: s in p ==> s in symbols;
      ShortsValueAgree(p, a, b, prices);
      assert symbols[|symbols| - 1] in symbols;
    }
  }
}
