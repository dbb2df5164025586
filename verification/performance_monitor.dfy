/** The performance monitor (performance_monitor.py): per-operation latency and
    success counters, event counters, and unrealized-PnL extremes. The clock is
    an input. */
module PerformanceMonitor {
  import opened Util

  /** How many recent latencies an operation keeps (`deque(maxlen=100)`). */
  const RecentCap: nat := 100

  /** `OperationMetrics`; `minLatency` None stands for the initial `float('inf')`. */
  datatype OperationMetrics = OperationMetrics(
    totalCalls: nat,
    successfulCalls: nat,
    failedCalls: nat,
    totalLatency: real,
    maxLatency: real,
    minLatency: Option<real>,
    recent: seq<real>)

  const FreshMetrics: OperationMetrics := OperationMetrics(0, 0, 0, 0.0, 0.0, None, [])

  /** `success_rate`: percent of calls that succeeded, 0 without calls. */
  function SuccessRate(m: OperationMetrics): (r: real)
    ensures m.totalCalls == 0 ==> r == 0.0
    ensures m.totalCalls > 0 ==> r * m.totalCalls as real == m.successfulCalls as real * 100.0
  {
    if m.totalCalls > 0 then m.successfulCalls as real / m.totalCalls as real * 100.0 else 0.0
  }

  /** `avg_latency`: mean latency per call, 0 without calls. */
  function AvgLatency(m: OperationMetrics): (r: real)
    ensures m.totalCalls == 0 ==> r == 0.0
    ensures m.totalCalls > 0 ==> r * m.totalCalls as real == m.totalLatency
  {
    if m.totalCalls > 0 then m.totalLatency / m.totalCalls as real else 0.0
  }

  function Sum(xs: seq<real>): real
  {
    if |xs| == 0 then 0.0 else Sum(xs[..|xs| - 1]) + xs[|xs| - 1]
  }

  /** `recent_avg_latency`: mean of the kept latencies, 0 when none are kept. */
  function RecentAvgLatency(m: OperationMetrics): (r: real)
    ensures m.recent == [] ==> r == 0.0
    ensures m.recent != [] ==> r * |m.recent| as real == Sum(m.recent)
  {
    if m.recent == [] then 0.0 else Sum(m.recent) / |m.recent| as real
  }

  /** Appends to a bounded deque: the oldest element falls out when full. */
  function Keep(recent: seq<real>, d: real): (r: seq<real>)
    requires |recent| <= RecentCap
    ensures |r| == if |recent| < RecentCap then |recent| + 1 else RecentCap
    ensures r[|r| - 1] == d
  {
    if |recent| < RecentCap then recent + [d] else (recent + [d])[1..]
  }

  /** One `track_latency` on an operation's metrics. */
  function RecordLatency(m: OperationMetrics, d: real): (r: OperationMetrics)
    requires |m.recent| <= RecentCap
    ensures r.totalCalls == m.totalCalls + 1 && r.totalLatency == m.totalLatency + d
    ensures r.successfulCalls == m.successfulCalls && r.failedCalls == m.failedCalls
    ensures r.maxLatency == Max(m.maxLatency, d)
    ensures r.minLatency == Some(if m.minLatency.Some? then Min(m.minLatency.value, d) else d)
    ensures |r.recent| <= RecentCap
  {
    OperationMetrics(
      m.totalCalls + 1,
      m.successfulCalls,
      m.failedCalls,
      m.totalLatency + d,
      if d > m.maxLatency then d else m.maxLatency,
      if m.minLatency.None? || d < m.minLatency.value then Some(d) else m.minLatency,
      Keep(m.recent, d))
  }

  /** Every latency recorded from fresh metrics, in order. */
  function RecordAll(m: OperationMetrics, ds: seq<real>): (r: OperationMetrics)
    requires |m.recent| <= RecentCap
    ensures |r.recent| <= RecentCap
  {
    if |ds| == 0 then m else RecordLatency(RecordAll(m, ds[..|ds| - 1]), ds[|ds| - 1])
  }

  /** From fresh metrics, the call count and the latency total are those of
      the recorded durations. */
  lemma {:induction false} RecordAllTotals(ds: seq<real>)
    ensures RecordAll(FreshMetrics, ds).totalCalls == |ds|
    ensures RecordAll(FreshMetrics, ds).totalLatency == Sum(ds)
  {
    if |ds| > 0 {
      RecordAllTotals(ds[..|ds| - 1]);
    }
  }

  /** From fresh metrics, the maximum bounds every recorded duration and 0,
      and is 0 or one of them. */
  lemma {:induction false} RecordAllMax(ds: seq<real>)
    ensures var r := RecordAll(FreshMetrics, ds);
            && r.maxLatency >= 0.0 && (forall i :: 0 <= i < |ds| ==> ds[i] <= r.maxLatency)
            && (r.maxLatency == 0.0 || r.maxLatency in ds)
  {
    if |ds| > 0 {
      RecordAllMax(ds[..|ds| - 1]);
      MaxStep(ds, RecordAll(FreshMetrics, ds[..|ds| - 1]).maxLatency);
    }
  }

  /** One step of the running maximum: from `ds` less its last element to `ds`. */
  lemma MaxStep(ds: seq<real>, m: real)
    requires |ds| > 0
    requires m >= 0.0 && (forall i :: 0 <= i < |ds| - 1 ==> ds[i] <= m) && (m == 0.0 || m in ds[..|ds| - 1])
    ensures var n := Max(m, ds[|ds| - 1]);
            && n >= 0.0 && (forall i :: 0 <= i < |ds| ==> ds[i] <= n)
            && (n == 0.0 || n in ds)
  {
  }

  /** From fresh metrics, the minimum is unset exactly when nothing was
      recorded, and is otherwise the least recorded duration. */
  lemma {:induction false} RecordAllMin(ds: seq<real>)
    ensures var r := RecordAll(FreshMetrics, ds);
            && (r.minLatency.None? <==> ds == [])
            && (r.minLatency.Some? ==> r.minLatency.value in ds && forall i :: 0 <= i < |ds| ==> r.minLatency.value <= ds[i])
  {
    if |ds| > 0 {
      RecordAllMin(ds[..|ds| - 1]);
      MinStep(ds, RecordAll(FreshMetrics, ds[..|ds| - 1]).minLatency);
    }
  }

  /** One step of the running minimum: from `ds` less its last element to `ds`. */
  lemma MinStep(ds: seq<real>, m: Option<real>)
    requires |ds| > 0
    requires m.None? <==> |ds| == 1
    requires m.Some? ==> m.value in ds[..|ds| - 1] && forall i :: 0 <= i < |ds| - 1 ==> m.value <= ds[i]
    ensures var n := if m.Some? then Min(m.value, ds[|ds| - 1]) else ds[|ds| - 1];
            n in ds && forall i :: 0 <= i < |ds| ==> n <= ds[i]
  {
  }

  /** Keeping the next duration on a deque that holds a suffix of the
      earlier ones yields a suffix of all of them. */
  lemma KeepSuffix(ds: seq<real>, recent: seq<real>)
    requires |ds| > 0 && |recent| <= RecentCap && |recent| <= |ds| - 1
    requires recent == ds[..|ds| - 1][|ds| - 1 - |recent|..]
    ensures Keep(recent, ds[|ds| - 1]) == ds[|ds| - |Keep(recent, ds[|ds| - 1])|..]
  {
    var d := ds[|ds| - 1];
    var k := |recent|;
    assert recent + [d] == ds[|ds| - (k + 1)..];
  }

  /** From fresh metrics, the deque holds min(|ds|, 100) durations. */
  lemma {:induction false} RecordAllRecentLength(ds: seq<real>)
    ensures |RecordAll(FreshMetrics, ds).recent| == (if |ds| < RecentCap then |ds| else RecentCap)
  {
    if |ds| > 0 {
      RecordAllRecentLength(ds[..|ds| - 1]);
    }
  }

  /** From fresh metrics, the deque holds exactly the last min(|ds|, 100)
      recorded durations, oldest first. */
  lemma {:induction false} RecordAllRecent(ds: seq<real>)
    ensures var r := RecordAll(FreshMetrics, ds);
            && |r.recent| == (if |ds| < RecentCap then |ds| else RecentCap)
            && r.recent == ds[|ds| - |r.recent|..]
  {
    RecordAllRecentLength(ds);
    if |ds| > 0 {
      var p := ds[..|ds| - 1];
      RecordAllRecent(p);
      var prev := RecordAll(FreshMetrics, p);
      KeepSuffix(ds, prev.recent);
      assert RecordAll(FreshMetrics, ds).recent == Keep(prev.recent, ds[|ds| - 1]);
    }
  }

  /** `PnLMetrics`. */
  datatype PnLMetrics = PnLMetrics(
    totalUnrealized: real,
    totalRealized: real,
    maxUnrealized: real,
    minUnrealized: real,
    updatesCount: nat,
    lastUpdate: real)

  const FreshPnL: PnLMetrics := PnLMetrics(0.0, 0.0, 0.0, 0.0, 0, 0.0)

  /** `total_pnl`. */
  function TotalPnl(p: PnLMetrics): (r: real)
    ensures r - p.totalRealized == p.totalUnrealized
  {
    p.totalUnrealized + p.totalRealized
  }

  /** `track_pnl` at time `now`. */
  function TrackPnl(p: PnLMetrics, unrealized: real, realized: real, now: real): (r: PnLMetrics)
    ensures r.totalUnrealized == unrealized && r.totalRealized == realized
    ensures r.updatesCount == p.updatesCount + 1 && r.lastUpdate == now
    ensures r.maxUnrealized == Max(p.maxUnrealized, unrealized)
    ensures r.minUnrealized == Min(p.minUnrealized, unrealized)
  {
    PnLMetrics(
      unrealized, realized,
      if unrealized > p.maxUnrealized then unrealized else p.maxUnrealized,
      if unrealized < p.minUnrealized then unrealized else p.minUnrealized,
      p.updatesCount + 1,
      now)
  }

  /** A run of `track_pnl` calls (realized 0, as the strategy reports). */
  function TrackPnlAll(p: PnLMetrics, us: seq<real>, now: real): PnLMetrics
  {
    if |us| == 0 then p else TrackPnl(TrackPnlAll(p, us[..|us| - 1], now), us[|us| - 1], 0.0, now)
  }

  /** Since a reset the extremes bracket every reported unrealized PnL and
      0, and the update count is the number of reports. */
  lemma {:induction false} PnlExtremes(us: seq<real>, now: real)
    ensures var r := TrackPnlAll(FreshPnL, us, now);
            && r.maxUnrealized >= 0.0 && r.minUnrealized <= 0.0
            && (forall i :: 0 <= i < |us| ==> r.minUnrealized <= us[i] <= r.maxUnrealized)
            && r.updatesCount == |us|
  {
    if |us| > 0 {
      PnlExtremes(us[..|us| - 1], now);
      assert forall i :: 0 <= i < |us| - 1 ==> us[i] == us[..|us| - 1][i];
    }
  }

  /** The monitor: per-operation metrics (a missing key reads as fresh
      metrics, as with `defaultdict`), PnL, and event counters. */
  datatype Monitor = Monitor(
    ops: map<string, OperationMetrics>,
    pnl: PnLMetrics,
    startTime: real,
    apiCalls: nat,
    ordersPlaced: nat,
    rebalancesExecuted: nat,
    errorsCount: nat)

  /** Every kept deque is within its bound. */
  predicate Valid(m: Monitor)
  {
    forall op :: op in m.ops ==> |m.ops[op].recent| <= RecentCap
  }

  function Metrics(m: Monitor, op: string): (r: OperationMetrics)
    requires Valid(m)
    ensures |r.recent| <= RecentCap
    ensures op !in m.ops ==> r == FreshMetrics
  {
    if op in m.ops then m.ops[op] else FreshMetrics
  }

  /** A new monitor (and the state `reset_metrics` leaves) at time `now`. */
  function Reset(now: real): (r: Monitor)
    ensures Valid(r) && r.ops == map[] && r.pnl == FreshPnL
    ensures r.apiCalls == 0 && r.ordersPlaced == 0 && r.rebalancesExecuted == 0 && r.errorsCount == 0
  {
    Monitor(map[], FreshPnL, now, 0, 0, 0, 0)
  }

  /** `track_latency`: one more call on `op` and on the API counter. */
  function TrackLatency(m: Monitor, op: string, d: real): (r: Monitor)
    requires Valid(m)
    ensures Valid(r)
    ensures r.ops.Keys == m.ops.Keys + {op} && r.ops[op] == RecordLatency(Metrics(m, op), d)
    ensures forall o :: o in m.ops && o != op ==> r.ops[o] == m.ops[o]
    ensures r.apiCalls == m.apiCalls + 1
    ensures r.pnl == m.pnl && r.ordersPlaced == m.ordersPlaced && r.errorsCount == m.errorsCount
            && r.rebalancesExecuted == m.rebalancesExecuted
  {
    m.(ops := m.ops[op := RecordLatency(Metrics(m, op), d)], apiCalls := m.apiCalls + 1)
  }

  /** `track_success_rate`: exactly one of the two outcome counters moves; a
      failure is also an error. The call count is not touched. */
  function TrackSuccess(m: Monitor, op: string, success: bool): (r: Monitor)
    requires Valid(m)
    ensures Valid(r)
    ensures op in r.ops
    ensures var before := Metrics(m, op);
            var after := r.ops[op];
            && after.totalCalls == before.totalCalls
            && after.successfulCalls + after.failedCalls == before.successfulCalls + before.failedCalls + 1
            && (success <==> after.successfulCalls == before.successfulCalls + 1)
    ensures r.errorsCount == m.errorsCount + (if success then 0 else 1)
    ensures r == m.(ops := r.ops, errorsCount := r.errorsCount)
    ensures r.ops.Keys == m.ops.Keys + {op}
    ensures forall o :: o in m.ops && o != op ==> r.ops[o] == m.ops[o]
    ensures r.ops[op] == Metrics(m, op).(successfulCalls := r.ops[op].successfulCalls,
                                         failedCalls := r.ops[op].failedCalls)
  {
    var before := Metrics(m, op);
    var after := if success then before.(successfulCalls := before.successfulCalls + 1)
                 else before.(failedCalls := before.failedCalls + 1);
    m.(ops := m.ops[op := after], errorsCount := m.errorsCount + (if success then 0 else 1))
  }

  /** `track_pnl` on the monitor. */
  function MonitorPnl(m: Monitor, unrealized: real, realized: real, now: real): (r: Monitor)
    ensures r.pnl == TrackPnl(m.pnl, unrealized, realized, now)
    ensures r == m.(pnl := r.pnl)
  {
    m.(pnl := TrackPnl(m.pnl, unrealized, realized, now))
  }

  /** `track_order_placed`. */
  function OrderPlaced(m: Monitor): (r: Monitor)
    ensures r.ordersPlaced == m.ordersPlaced + 1
    ensures r == m.(ordersPlaced := r.ordersPlaced)
  {
    m.(ordersPlaced := m.ordersPlaced + 1)
  }

  /** `track_rebalance_executed`. */
  function RebalanceExecuted(m: Monitor): (r: Monitor)
    ensures r.rebalancesExecuted == m.rebalancesExecuted + 1
    ensures r == m.(rebalancesExecuted := r.rebalancesExecuted)
  {
    m.(rebalancesExecuted := m.rebalancesExecuted + 1)
  }

  /** Every call the operation tracker makes records one latency and one
      outcome, so an operation whose outcomes account for its calls keeps
      doing so, and its success rate then counts the successful calls. */
  lemma OutcomesAccountForCalls(m: Monitor, op: string, d: real, success: bool)
    requires Valid(m)
    requires Metrics(m, op).successfulCalls + Metrics(m, op).failedCalls == Metrics(m, op).totalCalls
    ensures var r := TrackSuccess(TrackLatency(m, op, d), op, success);
            && r.ops[op].successfulCalls + r.ops[op].failedCalls == r.ops[op].totalCalls
            && r.ops[op].totalCalls == Metrics(m, op).totalCalls + 1
            && r.ops[op].successfulCalls == Metrics(m, op).successfulCalls + (if success then 1 else 0)
  {
    var l := TrackLatency(m, op, d);
    assert Metrics(l, op) == RecordLatency(Metrics(m, op), d);
  }
}
