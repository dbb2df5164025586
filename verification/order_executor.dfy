/** Order sizing against the venue's asset metadata, interpretation of the
    venue's reply to a market order, and the best-effort close of every open
    position (order_executor.py). The venue itself is an oracle: a function from
    the call that is sent to the reply it produces. */
module OrderExecutor {
  import opened Util
  import opened Json

  /** Per-symbol asset parameters as the metadata provider hands them over
      (`szDecimals`, `szStep`, optionally `minSz`, ...). */
  type AssetMeta = map<string, map<string, JsonValue>>

  const DefaultSzDecimals: int := 6

  /** Why a requested size was refused. */
  datatype SizeIssue =
    | NoIssue
    | NoMetaInfo
    | BelowMinSize(minSz: real)
    | ConversionError

  /** The `(is_valid, size, message)` triple of `validate_order_size`. */
  datatype SizeCheck = SizeCheck(ok: bool, size: real, issue: SizeIssue)

  /** The three numbers sizing needs, after Python's conversions. */
  datatype SizeParams = SizeParams(minSz: real, step: real, decimals: int)

  /** Reads `minSz`, `szStep` and `szDecimals`; the first two default to
      `10 ** -szDecimals` and `szDecimals` defaults to 6. None when a
      conversion raises. */
  function SizeParamsOf(p: map<string, JsonValue>): (r: Option<SizeParams>)
    ensures r.Some? && "minSz" !in p ==> r.value.minSz == Pow10(-r.value.decimals)
    ensures r.Some? && "szStep" !in p ==> r.value.step == Pow10(-r.value.decimals)
    ensures r.Some? && "szDecimals" !in p ==> r.value.decimals == DefaultSzDecimals
  {
    match ToInt(Get(p, "szDecimals", JInt(DefaultSzDecimals)))
    case None => None
    case Some(d) =>
      match (ToFloat(Get(p, "minSz", JReal(Pow10(-d)))), ToFloat(Get(p, "szStep", JReal(Pow10(-d)))))
      case (Some(minSz), Some(step)) => Some(SizeParams(minSz, step, d))
      case _ => None
  }

  /** `round(x / step) * step`: the nearest multiple of `step`. */
  function RoundToStep(x: real, step: real): real
    requires step != 0.0
  {
    RoundHalfEven(x / step) as real * step
  }

  /** `round(x, d)`: the nearest multiple of `10 ** -d`, ties to even. */
  function RoundToDecimals(x: real, d: int): real
  {
    RoundToStep(x, Pow10(-d))
  }

  /** Python's `validate_order_size`: round to the step, then to the decimal
      precision, then compare with the minimum size. */
  function ValidateOrderSize(meta: AssetMeta, symbol: string, size: real): (r: SizeCheck)
    ensures symbol !in meta ==> r == SizeCheck(false, 0.0, NoMetaInfo)
    ensures r.ok <==> symbol in meta && SizeParamsOf(meta[symbol]).Some?
                      && SizeParamsOf(meta[symbol]).value.step != 0.0
                      && r.size >= SizeParamsOf(meta[symbol]).value.minSz
    ensures r.ok ==> r.issue == NoIssue
    ensures !r.ok && r.issue.BelowMinSize? ==> r.size < r.issue.minSz
    ensures r.issue == ConversionError ==> r.size == 0.0
    ensures symbol in meta && SizeParamsOf(meta[symbol]).Some? && SizeParamsOf(meta[symbol]).value.step != 0.0 ==>
              var sp := SizeParamsOf(meta[symbol]).value;
              && Abs(r.size - size) <= Abs(sp.step) / 2.0 + Pow10(-sp.decimals) / 2.0
              && (r.size / Pow10(-sp.decimals)).Floor as real == r.size / Pow10(-sp.decimals)
  {
    if symbol !in meta then SizeCheck(false, 0.0, NoMetaInfo)
    else match SizeParamsOf(meta[symbol])
      case None => SizeCheck(false, 0.0, ConversionError)
      case Some(sp) =>
        if sp.step == 0.0 then SizeCheck(false, 0.0, ConversionError)
        else
          var rounded := RoundToDecimals(RoundToStep(size, sp.step), sp.decimals);
          RoundToStepClose(size, sp.step);
          RoundToStepClose(RoundToStep(size, sp.step), Pow10(-sp.decimals));
          OnGrid(RoundToStep(size, sp.step), Pow10(-sp.decimals));
          if rounded < sp.minSz then SizeCheck(false, rounded, BelowMinSize(sp.minSz))
          else SizeCheck(true, rounded, NoIssue)
  }

  // ---------------------------------------------------------------------
  // Arithmetic facts about the two roundings.

  lemma MulLeft(a: real, b: real, c: real)
    requires a <= b && c >= 0.0
    ensures a * c <= b * c
  {
  }

  lemma MulLeftStrict(a: real, b: real, c: real)
    requires a < b && c > 0.0
    ensures a * c < b * c
  {
  }

  /** `a * p < b * p` with `p > 0` means `a < b`. */
  lemma CancelPositive(a: real, b: real, p: real)
    requires p > 0.0 && a * p < b * p
    ensures a < b
  {
    if a >= b {
      MulLeft(b, a, p);
    }
  }

  /** |e| <= b implies |e * c| <= b * |c|. */
  lemma AbsMulLe(e: real, c: real, b: real)
    requires -b <= e <= b
    ensures Abs(e * c) <= b * Abs(c)
  {
    if c >= 0.0 {
      MulLeft(e, b, c);
      MulLeft(-b, e, c);
    } else {
      MulLeft(e, b, -c);
      MulLeft(-b, e, -c);
    }
  }

  /** If `k` is within one half of `x / c`, then `k * c` is within `|c| / 2` of `x`. */
  lemma ScaledError(x: real, c: real, k: real)
    requires c != 0.0
    requires -0.5 <= k - x / c <= 0.5
    ensures Abs(k * c - x) <= Abs(c) / 2.0
  {
    var e := k - x / c;
    assert k * c - x == e * c;
    AbsMulLe(e, c, 0.5);
  }

  lemma RoundToStepClose(x: real, step: real)
    requires step != 0.0
    ensures Abs(RoundToStep(x, step) - x) <= Abs(step) / 2.0
  {
    ScaledError(x, step, RoundHalfEven(x / step) as real);
  }

  /** A step rounding lands on the step's grid. */
  lemma OnGrid(x: real, step: real)
    requires step != 0.0
    ensures (RoundToStep(x, step) / step).Floor as real == RoundToStep(x, step) / step
  {
    var k := RoundHalfEven(x / step) as real;
    assert RoundToStep(x, step) / step == k;
  }

  lemma AbsMul(a: real, c: real)
    ensures Abs(a * c) == Abs(a) * Abs(c)
  {
    if a >= 0.0 && c >= 0.0 {
      MulLeft(0.0, a, c);
    } else if a >= 0.0 {
      MulLeft(0.0, a, -c);
    } else if c >= 0.0 {
      MulLeft(0.0, -a, c);
    } else {
      MulLeft(0.0, -a, -c);
    }
  }

  /** `d == a * s < s / 2` with `s > 0` means `a < 1/2`. */
  lemma BelowHalf(a: real, s: real, d: real)
    requires s > 0.0 && d == a * s && d < s / 2.0
    ensures a < 0.5
  {
    CancelPositive(a, 0.5, s);
  }

  /** A value strictly within half a step of `k * step` rounds to `k * step`. */
  lemma StepRoundStable(y: real, step: real, k: int)
    requires step != 0.0
    requires Abs(y - k as real * step) < Abs(step) / 2.0
    ensures RoundToStep(y, step) == k as real * step
  {
    var e := y / step - k as real;
    assert y - k as real * step == e * step;
    AbsMul(e, step);
    BelowHalf(Abs(e), Abs(step), Abs(y - k as real * step));
    RoundUnique(y / step, k);
  }

  /** A coarse step `s` (|s| > u): the grid rounding of a multiple of `s`
      stays within half a step of it, so the step rounding restores it. */
  lemma CoarseStepStable(q: real, s: real, u: real, k: int)
    requires s != 0.0 && u > 0.0 && Abs(s) > u && q == k as real * s
    ensures RoundToStep(RoundToStep(RoundToStep(q, u), s), u) == RoundToStep(q, u)
  {
    RoundToStepClose(q, u);
    StepRoundStable(RoundToStep(q, u), s, k);
  }

  /** A fine step `s` (|s| < u): the step rounding of a grid point moves it by
      less than half a grid cell, so the grid rounding restores it. */
  lemma FineStepStable(r: real, s: real, u: real, j: int)
    requires s != 0.0 && u > 0.0 && Abs(s) < u && r == j as real * u
    ensures RoundToStep(RoundToStep(r, s), u) == r
  {
    RoundToStepClose(r, s);
    StepRoundStable(RoundToStep(r, s), u, j);
  }

  /** Equal steps (|s| == u): a multiple of `s` is on the grid and is left
      alone by both roundings. */
  lemma EqualStepStable(q: real, s: real, u: real, k: int)
    requires u > 0.0 && Abs(s) == u && q == k as real * s
    ensures RoundToStep(q, u) == q && RoundToStep(q, s) == q
  {
    var n := if s > 0.0 then k else -k;
    assert q == n as real * u;
    StepRoundStable(q, u, n);
    StepRoundStable(q, s, k);
  }

  /** Rounding to the step `s`, then to the grid `u`, is a projection:
      applying both roundings again to the result changes nothing. */
  lemma DoubleRoundingIdempotent(x: real, s: real, u: real)
    requires s != 0.0 && u > 0.0
    ensures var r := RoundToStep(RoundToStep(x, s), u);
            RoundToStep(RoundToStep(r, s), u) == r
  {
    var k := RoundHalfEven(x / s);
    var q := RoundToStep(x, s);
    assert q == k as real * s;
    if Abs(s) > u {
      CoarseStepStable(q, s, u, k);
    } else if Abs(s) < u {
      FineStepStable(RoundToStep(q, u), s, u, RoundHalfEven(q / u));
    } else {
      EqualStepStable(q, s, u, k);
    }
  }

  lemma RoundingIdempotent(x: real, step: real, d: int)
    requires step != 0.0
    ensures var r := RoundToDecimals(RoundToStep(x, step), d);
            RoundToDecimals(RoundToStep(r, step), d) == r
  {
    DoubleRoundingIdempotent(x, step, Pow10(-d));
  }

  /** Validating an already validated size returns the same verdict and size:
      sizing is idempotent. */
  lemma ValidateIdempotent(meta: AssetMeta, symbol: string, size: real)
    ensures var v := ValidateOrderSize(meta, symbol, size);
            ValidateOrderSize(meta, symbol, v.size) == v
  {
    if symbol in meta {
      match SizeParamsOf(meta[symbol])
      case None =>
      case Some(sp) =>
        if sp.step != 0.0 {
          RoundingIdempotent(size, sp.step, sp.decimals);
        }
    }
  }

  // ---------------------------------------------------------------------
  // Market orders and closes.

  /** One entry of `response.data.statuses`: its `type` ("" when absent), its
      `resting` object (None when absent; carrying the `oid` if present) and
      its `msg`. */
  datatype StatusEntry = StatusEntry(kind: string, resting: Option<Option<int>>, msg: Option<string>)

  /** What the exchange call produced. `NoReply` stands for a falsy reply (None
      or an empty dict); `Reply` carries the `status` field ("" when absent)
      and the statuses list ([] when absent). */
  datatype VenueReply =
    | NoReply
    | Reply(status: string, statuses: seq<StatusEntry>)
    | Raised(error: string)

  /** The `error_message` of a failed OrderResult. */
  datatype OrderError =
    | ValidationFailed(issue: SizeIssue)
    | Rejected(msg: string)
    | NoStatuses
    | UnexpectedResponse
    | CallRaised(error: string)
    | CloseFailed

  datatype OrderResult = OrderResult(
    success: bool,
    orderId: Option<int>,
    filledSize: real,
    avgPrice: real,
    commission: real,
    error: Option<OrderError>)

  function Failed(e: OrderError): OrderResult
  {
    OrderResult(false, None, 0.0, 0.0, 0.0, Some(e))
  }

  /** The market order that actually reaches the exchange. */
  datatype MarketOpen = MarketOpen(symbol: string, isBuy: bool, size: real, price: real)

  /** The outcome of `place_market_order`: the result, and the exchange call made (if any). */
  datatype Placement = Placement(result: OrderResult, sent: Option<MarketOpen>)

  /** Reading of the venue's reply: success iff status is "ok" and the first
      status has type "success". */
  function InterpretOrderReply(reply: VenueReply, size: real, price: real): (r: OrderResult)
    ensures r.success <==> reply.Reply? && reply.status == "ok" && |reply.statuses| > 0
                           && reply.statuses[0].kind == "success"
    ensures r.success ==> r.filledSize == size && r.avgPrice == price
                          && r.orderId == (if reply.statuses[0].resting.Some? then reply.statuses[0].resting.value else None)
    ensures !r.success ==> r.error.Some? && r.orderId.None?
    ensures reply.Reply? && reply.status == "ok" && reply.statuses == [] ==> r.error == Some(NoStatuses)
    ensures reply.Raised? ==> r.error == Some(CallRaised(reply.error))
  {
    match reply
    case Raised(e) => Failed(CallRaised(e))
    case NoReply => Failed(UnexpectedResponse)
    case Reply(status, statuses) =>
      if status != "ok" then Failed(UnexpectedResponse)
      else if |statuses| == 0 then Failed(NoStatuses)
      else
        var st := statuses[0];
        if st.kind == "success" then
          OrderResult(true, if st.resting.Some? then st.resting.value else None, size, price, 0.0, None)
        else Failed(Rejected(st.msg.GetOr("Unknown error")))
  }

  /** Python's `place_market_order`: validate, and only on success send the
      validated size (never the raw one) to the exchange. Never raises. */
  function PlaceMarketOrder(meta: AssetMeta, symbol: string, isBuy: bool, size: real, price: real,
                            exchange: MarketOpen -> VenueReply): (p: Placement)
    ensures var v := ValidateOrderSize(meta, symbol, size);
            && (!v.ok ==> p.sent.None? && p.result == Failed(ValidationFailed(v.issue)))
            && (v.ok ==> p.sent == Some(MarketOpen(symbol, isBuy, v.size, price)))
            && (p.result.success ==> v.ok && p.result.filledSize == v.size)
    ensures p.result.success <==> p.sent.Some? && exchange(p.sent.value).Reply?
                                  && exchange(p.sent.value).status == "ok"
                                  && |exchange(p.sent.value).statuses| > 0
                                  && exchange(p.sent.value).statuses[0].kind == "success"
  {
    var v := ValidateOrderSize(meta, symbol, size);
    if !v.ok then Placement(Failed(ValidationFailed(v.issue)), None)
    else
      var call := MarketOpen(symbol, isBuy, v.size, price);
      Placement(InterpretOrderReply(exchange(call), v.size, price), Some(call))
  }

  /** Python's `close_position`: success iff the reply's status is "ok". */
  function ClosePosition(reply: VenueReply): (r: OrderResult)
    ensures r.success <==> reply.Reply? && reply.status == "ok"
    ensures r.orderId.None?
  {
    match reply
    case Reply(status, _) =>
      if status == "ok" then OrderResult(true, None, 0.0, 0.0, 0.0, None) else Failed(CloseFailed)
    case NoReply => Failed(CloseFailed)
    case Raised(e) => Failed(CallRaised(e))
  }

  /** Python's `close_all_positions`: one close per symbol whose size is not
      dust, each attempted regardless of how the others went. */
  function CloseAllPositions(positions: map<string, real>, closeReply: string -> VenueReply): (r: map<string, OrderResult>)
    ensures forall s :: s in r <==> s in positions && IsOpen(positions[s])
    ensures forall s :: s in r ==> r[s] == ClosePosition(closeReply(s))
  {
    map s | s in positions && IsOpen(positions[s]) :: ClosePosition(closeReply(s))
  }
}
