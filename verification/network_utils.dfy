/** The network helpers (network_utils.py): exponential back-off with
    optional jitter, a retry wrapper, a price sanity validator, and a circuit
    breaker. Randomness, the clock and the wrapped call's outcomes are
    inputs. */
module Network {
  import opened Util

  // ---------------------------------------------------------------------
  // Retry configuration and back-off.

  datatype RetryConfig = RetryConfig(maxRetries: int, baseDelay: real, maxDelay: real, exponentialBase: real, jitter: bool)

  /** `NetworkRetryConfig()` with every default. */
  const DefaultRetry: RetryConfig := RetryConfig(3, 1.0, 60.0, 2.0, true)

  /** A keyword argument to `NetworkRetryConfig(...)`; `Unknown` is any
      keyword the constructor does not declare. */
  datatype RetryArg =
    | MaxRetries(n: int)
    | BaseDelay(seconds: real)
    | MaxDelay(seconds: real)
    | ExponentialBase(base: real)
    | Jitter(on: bool)
    | Unknown(name: string)

  function ApplyArg(c: RetryConfig, a: RetryArg): RetryConfig
  {
    match a
    case MaxRetries(n) => c.(maxRetries := n)
    case BaseDelay(d) => c.(baseDelay := d)
    case MaxDelay(d) => c.(maxDelay := d)
    case ExponentialBase(b) => c.(exponentialBase := b)
    case Jitter(on) => c.(jitter := on)
    case Unknown(_) => c
  }

  function ApplyArgs(c: RetryConfig, args: seq<RetryArg>): RetryConfig
  {
    if |args| == 0 then c else ApplyArg(ApplyArgs(c, args[..|args| - 1]), args[|args| - 1])
  }

  /** Calling the constructor: a keyword it does not declare is a
      `TypeError` (None); otherwise each keyword replaces its default. */
  function NewRetryConfig(args: seq<RetryArg>): (r: Option<RetryConfig>)
    ensures r.None? <==> exists i :: 0 <= i < |args| && args[i].Unknown?
    ensures args == [] ==> r == Some(DefaultRetry)
  {
    if exists i :: 0 <= i < |args| && args[i].Unknown? then None else Some(ApplyArgs(DefaultRetry, args))
  }

  /** A keyword given once sets its field, whatever the other keywords are. */
  lemma {:induction false} ArgSetsField(args: seq<RetryArg>, i: int)
    requires 0 <= i < |args|
    requires forall j :: 0 <= j < |args| && j != i ==> !args[j].MaxRetries?
    requires args[i].MaxRetries?
    ensures ApplyArgs(DefaultRetry, args).maxRetries == args[i].n
  {
    var p := args[..|args| - 1];
    if i < |args| - 1 {
      assert p[i] == args[i];
      forall j | 0 <= j < |p| && j != i ensures !p[j].MaxRetries? {
        assert p[j] == args[j];
      }
      ArgSetsField(p, i);
    }
  }

  /** The three preset configurations. */
  const AggressiveRetryArgs: seq<RetryArg> := [MaxRetries(5), BaseDelay(0.5), MaxDelay(30.0)]
  const ConservativeRetryArgs: seq<RetryArg> := [MaxRetries(3), BaseDelay(2.0), MaxDelay(60.0)]
  const QuickRetryArgs: seq<RetryArg> := [MaxRetries(2), BaseDelay(0.1), MaxDelay(5.0)]

  lemma ApplyThree(c: RetryConfig, x: RetryArg, y: RetryArg, z: RetryArg)
    ensures ApplyArgs(c, [x, y, z]) == ApplyArg(ApplyArg(ApplyArg(c, x), y), z)
  {
    assert [x][..0] == [];
    assert ApplyArgs(c, [x]) == ApplyArg(c, x);
    assert [x, y][..1] == [x];
    assert ApplyArgs(c, [x, y]) == ApplyArg(ApplyArg(c, x), y);
    assert [x, y, z][..2] == [x, y];
  }

  lemma ApplyFour(c: RetryConfig, x: RetryArg, y: RetryArg, z: RetryArg, w: RetryArg)
    ensures ApplyArgs(c, [x, y, z, w]) == ApplyArg(ApplyArg(ApplyArg(ApplyArg(c, x), y), z), w)
  {
    assert [x, y, z, w][..3] == [x, y, z];
    ApplyThree(c, x, y, z);
  }

  /** The presets build: their keywords are all declared. */
  lemma PresetsBuild()
    ensures NewRetryConfig(AggressiveRetryArgs) == Some(RetryConfig(5, 0.5, 30.0, 2.0, true))
    ensures NewRetryConfig(ConservativeRetryArgs) == Some(RetryConfig(3, 2.0, 60.0, 2.0, true))
    ensures NewRetryConfig(QuickRetryArgs) == Some(RetryConfig(2, 0.1, 5.0, 2.0, true))
  {
    ApplyThree(DefaultRetry, MaxRetries(5), BaseDelay(0.5), MaxDelay(30.0));
    ApplyThree(DefaultRetry, MaxRetries(3), BaseDelay(2.0), MaxDelay(60.0));
    ApplyThree(DefaultRetry, MaxRetries(2), BaseDelay(0.1), MaxDelay(5.0));
  }

  /** The module-level `default_retry_config` and `api_retry_config` as
      written: both pass `backoff_multiplier` and `timeout`, which the
      constructor does not declare. */
  const DefaultRetryArgsAsWritten: seq<RetryArg> :=
    [MaxRetries(3), BaseDelay(1.0), MaxDelay(10.0), Unknown("backoff_multiplier"), Unknown("timeout")]
  const ApiRetryArgsAsWritten: seq<RetryArg> :=
    [MaxRetries(2), BaseDelay(0.5), MaxDelay(5.0), Unknown("backoff_multiplier"), Unknown("timeout")]

  /** Both module-level constructions raise, so importing the module fails
      before any of its helpers can be used. */
  lemma ModuleConfigsAsWrittenRaise()
    ensures NewRetryConfig(DefaultRetryArgsAsWritten).None?
    ensures NewRetryConfig(ApiRetryArgsAsWritten).None?
  {
    assert DefaultRetryArgsAsWritten[3].Unknown?;
    assert ApiRetryArgsAsWritten[3].Unknown?;
  }

  /** The two configurations as evidently intended: the multiplier is the
      exponential base, and the timeout (which no field holds) is dropped. */
  const DefaultRetryArgs: seq<RetryArg> := [MaxRetries(3), BaseDelay(1.0), MaxDelay(10.0), ExponentialBase(2.0)]
  const ApiRetryArgs: seq<RetryArg> := [MaxRetries(2), BaseDelay(0.5), MaxDelay(5.0), ExponentialBase(1.5)]

  /** The corrected configurations build, with the intended back-off. */
  lemma ModuleConfigsBuild()
    ensures NewRetryConfig(DefaultRetryArgs) == Some(RetryConfig(3, 1.0, 10.0, 2.0, true))
    ensures NewRetryConfig(ApiRetryArgs) == Some(RetryConfig(2, 0.5, 5.0, 1.5, true))
  {
    ApplyFour(DefaultRetry, MaxRetries(3), BaseDelay(1.0), MaxDelay(10.0), ExponentialBase(2.0));
    ApplyFour(DefaultRetry, MaxRetries(2), BaseDelay(0.5), MaxDelay(5.0), ExponentialBase(1.5));
  }

  /** The delay before jitter: `base * exp ** attempt`, capped at `maxDelay`. */
  function CappedDelay(c: RetryConfig, attempt: nat): (d: real)
    ensures d <= c.maxDelay
    ensures d == c.maxDelay || d == Notional(c.baseDelay, Pow(c.exponentialBase, attempt))
    ensures Notional(c.baseDelay, Pow(c.exponentialBase, attempt)) <= c.maxDelay ==>
              d == Notional(c.baseDelay, Pow(c.exponentialBase, attempt))
  {
    Min(Notional(c.baseDelay, Pow(c.exponentialBase, attempt)), c.maxDelay)
  }

  /** `get_delay`; `u` is the value `random.random()` returned, in [0, 1). */
  function GetDelay(c: RetryConfig, attempt: nat, u: real): (d: real)
    requires 0.0 <= u < 1.0
    ensures !c.jitter ==> d == CappedDelay(c, attempt)
    ensures c.jitter && CappedDelay(c, attempt) >= 0.0 ==>
              Notional(CappedDelay(c, attempt), 0.5) <= d <= CappedDelay(c, attempt)
  {
    var capped := CappedDelay(c, attempt);
    if c.jitter then
      JitterBounds(capped, u);
      Notional(capped, 0.5 + u * 0.5)
    else capped
  }

  lemma JitterBounds(x: real, u: real)
    requires 0.0 <= u < 1.0
    ensures x >= 0.0 ==> Notional(x, 0.5) <= Notional(x, 0.5 + u * 0.5) <= x
  {
    if x >= 0.0 {
      var f := 0.5 + u * 0.5;
      assert 0.5 <= f <= 1.0;
      assert x * f - x * 0.5 == x * (f - 0.5);
      MulNonNegative(x, f - 0.5);
      assert x - x * f == x * (1.0 - f);
      MulNonNegative(x, 1.0 - f);
    }
  }

  /** With a non-negative base delay and a base of at least 1, the un-jittered
      delays never shrink from one attempt to the next. */
  lemma DelaysGrow(c: RetryConfig, attempt: nat)
    requires !c.jitter && c.baseDelay >= 0.0 && c.exponentialBase >= 1.0
    ensures GetDelay(c, attempt, 0.0) <= GetDelay(c, attempt + 1, 0.0)
  {
    PowAtLeastOne(c.exponentialBase, attempt);
    var p := Pow(c.exponentialBase, attempt);
    assert Pow(c.exponentialBase, attempt + 1) == c.exponentialBase * p;
    assert c.exponentialBase * p - p == (c.exponentialBase - 1.0) * p;
    MulNonNegative(c.exponentialBase - 1.0, p);
    assert Notional(c.baseDelay, c.exponentialBase * p) - Notional(c.baseDelay, p) == c.baseDelay * (c.exponentialBase * p - p);
    MulNonNegative(c.baseDelay, c.exponentialBase * p - p);
  }

  lemma {:induction false} PowAtLeastOne(b: real, n: nat)
    requires b >= 1.0
    ensures Pow(b, n) >= 1.0
  {
    if n > 0 {
      PowAtLeastOne(b, n - 1);
      assert b * Pow(b, n - 1) - Pow(b, n - 1) == (b - 1.0) * Pow(b, n - 1);
      MulNonNegative(b - 1.0, Pow(b, n - 1));
    }
  }

  // ---------------------------------------------------------------------
  // The retry wrapper.

  /** What one call of the wrapped function did: returned a value, or raised
      an exception that is (`expected`) or is not in the retried types. */
  datatype CallOutcome<T> = Success(value: T) | Failure(expected: bool)

  /** How `with_retry`'s wrapper ended: with a value, by re-raising the
      exception of attempt `attempt`, or (when `maxRetries` is negative and
      the loop never runs) by falling off the end, returning None. */
  datatype RetryResult<T> = Returned(value: T) | Reraised(attempt: nat) | FellThrough

  /** The result, the number of calls made, and the sleeps taken. */
  datatype RetryRun<T> = RetryRun(result: RetryResult<T>, calls: nat, sleeps: seq<real>)

  /** The loop from attempt `attempt` on; `outcome(i)` is what the `i`-th call
      does and `jitter(i)` the random number drawn before the `i`-th sleep. */
  function RetryFrom<T>(c: RetryConfig, outcome: nat -> CallOutcome<T>, jitter: nat -> real, attempt: nat): (r: RetryRun<T>)
    requires forall i :: 0.0 <= jitter(i) < 1.0
    requires attempt <= c.maxRetries
    ensures attempt < r.calls <= c.maxRetries + 1
    ensures |r.sleeps| == r.calls - 1 - attempt
    ensures forall k :: 0 <= k < |r.sleeps| ==> r.sleeps[k] == GetDelay(c, attempt + k, jitter(attempt + k))
    ensures forall i :: attempt <= i < r.calls - 1 ==> outcome(i) == Failure(true)
    ensures r.result.Returned? ==> outcome(r.calls - 1) == Success(r.result.value)
    ensures r.result.Reraised? ==> r.result.attempt == r.calls - 1 && outcome(r.calls - 1).Failure?
                                   && (!outcome(r.calls - 1).expected || r.calls - 1 == c.maxRetries)
    ensures !r.result.FellThrough?
    decreases c.maxRetries - attempt
  {
    match outcome(attempt)
    case Success(v) => RetryRun(Returned(v), attempt + 1, [])
    case Failure(expected) =>
      if !expected || attempt == c.maxRetries then RetryRun(Reraised(attempt), attempt + 1, [])
      else
        var rest := RetryFrom(c, outcome, jitter, attempt + 1);
        RetryRun(rest.result, rest.calls, [GetDelay(c, attempt, jitter(attempt))] + rest.sleeps)
  }

  /** `with_retry(config, exceptions)` applied to a function and called. */
  function WithRetry<T>(c: RetryConfig, outcome: nat -> CallOutcome<T>, jitter: nat -> real): (r: RetryRun<T>)
    requires forall i :: 0.0 <= jitter(i) < 1.0
    ensures c.maxRetries < 0 ==> r == RetryRun(FellThrough, 0, [])
    ensures c.maxRetries >= 0 ==> 1 <= r.calls <= c.maxRetries + 1 && |r.sleeps| == r.calls - 1
    ensures forall k :: 0 <= k < |r.sleeps| ==> r.sleeps[k] == GetDelay(c, k, jitter(k))
    ensures r.result.Returned? ==> outcome(r.calls - 1) == Success(r.result.value)
    ensures r.result.Reraised? ==> r.result.attempt == r.calls - 1 && outcome(r.calls - 1).Failure?
  {
    if c.maxRetries < 0 then RetryRun(FellThrough, 0, []) else RetryFrom(c, outcome, jitter, 0)
  }

  /** The wrapper returns the first success: when every earlier call raised
      an expected exception, call `j` is the last one made and its value is
      returned. */
  lemma FirstSuccessReturned<T>(c: RetryConfig, outcome: nat -> CallOutcome<T>, jitter: nat -> real, j: nat)
    requires forall i :: 0.0 <= jitter(i) < 1.0
    requires j <= c.maxRetries && outcome(j).Success?
    requires forall i :: 0 <= i < j ==> outcome(i) == Failure(true)
    ensures WithRetry(c, outcome, jitter) == RetryRun(Returned(outcome(j).value), j + 1,
                                                      WithRetry(c, outcome, jitter).sleeps)
  {
  }

  /** An exception outside the retried types is re-raised at once: no retry
      and no sleep. */
  lemma UnexpectedNotRetried<T>(c: RetryConfig, outcome: nat -> CallOutcome<T>, jitter: nat -> real)
    requires forall i :: 0.0 <= jitter(i) < 1.0
    requires c.maxRetries >= 0 && outcome(0) == Failure(false)
    ensures WithRetry(c, outcome, jitter) == RetryRun(Reraised(0), 1, [])
  {
  }

  /** When every call raises an expected exception, all `maxRetries + 1` calls
      are made, with a sleep between each two and none after the last. */
  lemma AllFailuresExhaustRetries<T>(c: RetryConfig, outcome: nat -> CallOutcome<T>, jitter: nat -> real)
    requires forall i :: 0.0 <= jitter(i) < 1.0
    requires c.maxRetries >= 0 && forall i :: outcome(i) == Failure(true)
    ensures WithRetry(c, outcome, jitter).result == Reraised(c.maxRetries)
    ensures WithRetry(c, outcome, jitter).calls == c.maxRetries + 1
    ensures |WithRetry(c, outcome, jitter).sleeps| == c.maxRetries
  {
  }

  // ---------------------------------------------------------------------
  // The price sanity validator.

  /** A validator: its bounds and the last accepted price per symbol. */
  datatype PriceValidator = PriceValidator(minPrice: real, maxPrice: real, maxChangePercent: real,
                                           lastPrices: map<string, real>)

  /** `PriceValidator()` with every default. */
  const NewPriceValidator: PriceValidator := PriceValidator(0.0001, 1000000.0, 50.0, map[])

  /** The move from `previous` to `price`, in percent of `previous`. */
  function ChangePercent(price: real, previous: real): (r: real)
    requires previous != 0.0
    ensures r * previous == Abs(price - previous) * 100.0
  {
    Percent(Abs(price - previous), previous);
    Abs(price - previous) / previous * 100.0
  }

  /** The reference price: the one passed in, else the last accepted one. */
  function Reference(v: PriceValidator, symbol: string, previous: Option<real>): Option<real>
  {
    if previous.Some? then previous else if symbol in v.lastPrices then Some(v.lastPrices[symbol]) else None
  }

  /** The price moved by more than the validator allows from a positive
      reference price. */
  predicate JumpsTooFar(v: PriceValidator, symbol: string, price: real, previous: Option<real>)
  {
    var ref := Reference(v, symbol, previous);
    ref.Some? && ref.value > 0.0 && ChangePercent(price, ref.value) > v.maxChangePercent
  }

  /** `validate_price`: the verdict and the validator's new state. */
  function ValidatePrice(v: PriceValidator, symbol: string, price: real, previous: Option<real>)
    : (r: (bool, PriceValidator))
    ensures r.0 <==> v.minPrice <= price <= v.maxPrice && !JumpsTooFar(v, symbol, price, previous)
    ensures !r.0 ==> r.1 == v
    ensures r.0 ==> r.1 == v.(lastPrices := v.lastPrices[symbol := price])
  {
    if !(v.minPrice <= price <= v.maxPrice) then (false, v)
    else if JumpsTooFar(v, symbol, price, previous) then (false, v)
    else (true, v.(lastPrices := v.lastPrices[symbol := price]))
  }

  /** `get_last_price`. */
  function GetLastPrice(v: PriceValidator, symbol: string): (r: Option<real>)
    ensures r.Some? <==> symbol in v.lastPrices
  {
    if symbol in v.lastPrices then Some(v.lastPrices[symbol]) else None
  }

  /** An accepted price becomes the last price of its symbol, and a repeat of
      it is accepted again. */
  lemma AcceptedPriceRemembered(v: PriceValidator, symbol: string, price: real)
    requires ValidatePrice(v, symbol, price, None).0
    requires v.maxChangePercent >= 0.0
    ensures var w := ValidatePrice(v, symbol, price, None).1;
            GetLastPrice(w, symbol) == Some(price) && ValidatePrice(w, symbol, price, None).0
  {
    var w := ValidatePrice(v, symbol, price, None).1;
    if price > 0.0 {
      assert ChangePercent(price, price) * price == 0.0;
    }
  }

  /** With a positive reference price, a price is accepted only if it stays
      within `maxChangePercent` of it. */
  lemma AcceptedMoveBounded(v: PriceValidator, symbol: string, price: real, prev: real)
    requires prev > 0.0 && ValidatePrice(v, symbol, price, Some(prev)).0
    ensures Abs(price - prev) * 100.0 <= v.maxChangePercent * prev
  {
    var c := ChangePercent(price, prev);
    assert c <= v.maxChangePercent;
    assert c * prev <= v.maxChangePercent * prev;
  }

  // ---------------------------------------------------------------------
  // The circuit breaker.

  datatype BreakerState = Closed | Open | HalfOpen

  datatype Breaker = Breaker(threshold: int, recoveryTimeout: real, failures: nat,
                             lastFailure: Option<real>, state: BreakerState)

  /** `CircuitBreaker()` with every default. */
  const NewBreaker: Breaker := Breaker(5, 60.0, 0, None, Closed)

  /** What the wrapped function did when invoked: returned, raised the
      expected exception type, or raised some other exception. */
  datatype Invocation = Returns | RaisesExpected | RaisesOther

  /** The call through the breaker: was the function invoked, did the call
      raise, and the breaker afterwards. */
  datatype BreakerCall = BreakerCall(invoked: bool, raised: bool, after: Breaker)

  /** `_should_attempt_reset` at time `now`. */
  predicate ShouldAttemptReset(b: Breaker, now: real)
  {
    b.lastFailure.Some? && now - b.lastFailure.value >= b.recoveryTimeout
  }

  /** The wrapper: an OPEN breaker refuses the call until the recovery
      timeout has passed since the last failure, then lets one through as
      HALF_OPEN; a return closes it, an expected exception counts a failure.
      The clock is read twice: `now` before the call, for the timeout, and
      `failedAt` after it, to stamp a failure. */
  function Call(b: Breaker, now: real, failedAt: real, f: Invocation): (r: BreakerCall)
    ensures b.state == Open && !ShouldAttemptReset(b, now) ==> r == BreakerCall(false, true, b)
    ensures r.invoked <==> b.state != Open || ShouldAttemptReset(b, now)
    ensures r.invoked ==> (r.raised <==> f != Returns)
    ensures r.invoked && f == Returns ==> r.after.failures == 0 && r.after.state == Closed
    ensures r.invoked && f == RaisesExpected ==>
              && r.after.failures == b.failures + 1 && r.after.lastFailure == Some(failedAt)
              && (r.after.failures >= b.threshold ==> r.after.state == Open)
    ensures r.invoked && f == RaisesOther ==>
              r.after.failures == b.failures && r.after.lastFailure == b.lastFailure
    ensures r.after.threshold == b.threshold && r.after.recoveryTimeout == b.recoveryTimeout
  {
    if b.state == Open && !ShouldAttemptReset(b, now) then BreakerCall(false, true, b)
    else
      var entered := if b.state == Open then b.(state := HalfOpen) else b;
      match f
      case Returns => BreakerCall(true, false, entered.(failures := 0, state := Closed))
      case RaisesExpected =>
        var n := entered.failures + 1;
        BreakerCall(true, true, entered.(failures := n, lastFailure := Some(failedAt),
                                         state := if n >= entered.threshold then Open else entered.state))
      case RaisesOther => BreakerCall(true, true, entered)
  }

  /** The breaker's invariant: whenever it is not CLOSED, it has seen a
      failure and counts at least `threshold` of them. */
  predicate BreakerValid(b: Breaker)
  {
    b.state != Closed ==> b.lastFailure.Some? && b.failures >= b.threshold
  }

  lemma CallPreservesValid(b: Breaker, now: real, failedAt: real, f: Invocation)
    requires BreakerValid(b)
    ensures BreakerValid(Call(b, now, failedAt, f).after)
  {
  }

  /** A failure of the call let through after the timeout reopens the breaker
      at once, and restarts the timeout. */
  lemma HalfOpenFailureReopens(b: Breaker, now: real, failedAt: real)
    requires BreakerValid(b) && b.state == Open && ShouldAttemptReset(b, now)
    ensures Call(b, now, failedAt, RaisesExpected).after.state == Open
    ensures Call(b, now, failedAt, RaisesExpected).after.lastFailure == Some(failedAt)
  {
  }

  /** From a fresh breaker, `threshold` expected failures in a row open it. */
  lemma {:induction false} FailuresOpen(b: Breaker, now: real, n: nat)
    requires b.state == Closed && b.failures == 0 && b.threshold >= 1
    requires n <= b.threshold
    ensures var c := Failures(b, now, n);
            c.failures == n && (c.state == Open <==> n == b.threshold)
  {
    if n > 0 {
      FailuresOpen(b, now, n - 1);
    }
  }

  /** The breaker after `n` expected failures of invoked calls. */
  function Failures(b: Breaker, now: real, n: nat): (r: Breaker)
    ensures r.threshold == b.threshold
  {
    if n == 0 then b else Call(Failures(b, now, n - 1), now, now, RaisesExpected).after
  }
}
