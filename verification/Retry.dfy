/** Which outcomes are worth another attempt, and how long to wait before it. Doubles are taken as
    reals; values that are not finite keep the special treatment they get. */
module RetryPolicies {
  import opened MachineInts

  datatype Double = Finite(value: real) | NonFinite

  datatype ErrorCode =
    | NetworkError | RateLimited | ServerError | NotFound | InvalidRequest | ParseError | CacheError | Unknown

  /** What one HTTP attempt comes to: a response with its status, or an error. */
  datatype Outcome = Response(status: int, body: string) | Failure(code: ErrorCode)

  datatype RetryPolicy = RetryPolicy(
    initialDelayMs: int64,
    maxDelayMs: int64,
    backoffMultiplier: Double,
    jitterFactor: Double,
    maxAttempts: uint8,
    retryOnNetworkError: bool,
    retryOnRateLimit: bool,
    retryOnServerError: bool)

  predicate ShouldRetryResponse(status: int, p: RetryPolicy) {
    if status == 429 || status == 503 then p.retryOnRateLimit
    else p.retryOnServerError && 500 <= status < 600
  }

  predicate ShouldRetryError(code: ErrorCode, p: RetryPolicy) {
    p.retryOnNetworkError && code == NetworkError
  }

  predicate ShouldRetry(o: Outcome, p: RetryPolicy) {
    match o
    case Response(status, _) => ShouldRetryResponse(status, p)
    case Failure(code) => ShouldRetryError(code, p)
  }

  // ---------------------------------------------------------------- delays

  function RealMin(a: real, b: real): real { if a <= b then a else b }

  function RealMax(a: real, b: real): real { if a >= b then a else b }

  /** `initial` times the `n`-th power of `m`. */
  function Exponential(initial: real, m: real, n: nat): real {
    if n == 0 then initial else m * Exponential(initial, m, n - 1)
  }

  function MaxDelay(p: RetryPolicy): int64 { if p.maxDelayMs < 0 then 0 else p.maxDelayMs }

  function InitialDelay(p: RetryPolicy): int64 {
    if p.initialDelayMs < 0 then 0 else if p.initialDelayMs > MaxDelay(p) then MaxDelay(p) else p.initialDelayMs
  }

  function Multiplier(p: RetryPolicy): real {
    match p.backoffMultiplier
    case Finite(m) => if m < 0.0 then 0.0 else m
    case NonFinite => 1.0
  }

  function Spread(p: RetryPolicy): real {
    match p.jitterFactor
    case Finite(j) => if j < 0.0 then 0.0 else if j > 1.0 then 1.0 else j
    case NonFinite => 0.0
  }

  function Capped(initial: real, m: real, cap: real, n: nat): real { RealMin(Exponential(initial, m, n), cap) }

  /** The delay after `n` retries, jitter apart: the exponential, cut off at the maximum. */
  function Backoff(p: RetryPolicy, n: nat): real {
    Capped(InitialDelay(p) as real, Multiplier(p), MaxDelay(p) as real, n)
  }

  lemma Shrinks(x: real, y: real)
    requires x <= 1.0 && 0.0 <= y
    ensures x * y <= y
  {
  }

  lemma Grows(x: real, y: real)
    requires 1.0 <= x && 0.0 <= y
    ensures y <= x * y
  {
  }

  lemma ProductNonNegative(a: real, b: real)
    requires 0.0 <= a && 0.0 <= b
    ensures 0.0 <= a * b
  {
  }

  lemma {:induction false} ExponentialRange(initial: real, m: real, n: nat)
    requires 0.0 <= initial && 0.0 <= m
    ensures 0.0 <= Exponential(initial, m, n)
    ensures m <= 1.0 ==> Exponential(initial, m, n) <= initial
  {
    if n > 0 {
      ExponentialRange(initial, m, n - 1);
      var y := Exponential(initial, m, n - 1);
      assert Exponential(initial, m, n) == m * y;
      ProductNonNegative(m, y);
      if m <= 1.0 {
        Shrinks(m, y);
        assert m * y <= y;
      }
    }
  }

  /** One saturating multiplication of an exponential already cut off at `cap`. */
  lemma SaturateProduct(x: real, m: real, cap: real)
    requires 0.0 <= cap && 0.0 <= x && (x > cap ==> m > 1.0)
    ensures RealMin(RealMin(x, cap) * m, cap) == RealMin(m * x, cap)
  {
    if x > cap {
      Grows(m, cap);
      Grows(m, x);
      assert RealMin(x, cap) * m == m * cap;
    } else {
      assert RealMin(x, cap) * m == m * x;
    }
  }

  /** Cutting off at the maximum after every multiplication comes to the same as cutting off once at
      the end: an exponential that has exceeded the maximum never comes back below it, and one with
      a multiplier below one never gets there. */
  lemma SaturationStep(initial: real, m: real, cap: real, n: nat)
    requires 0.0 <= initial <= cap && 0.0 <= m
    ensures RealMin(Capped(initial, m, cap, n) * m, cap) == Capped(initial, m, cap, n + 1)
  {
    var x := Exponential(initial, m, n);
    ExponentialRange(initial, m, n);
    SaturateProduct(x, m, cap);
    assert Exponential(initial, m, n + 1) == m * x;
  }

  /** The delay after `n` retries with its jitter drawn as `draw`: the capped exponential times the
      jitter, in whole milliseconds and never above the maximum. */
  function DelayWith(p: RetryPolicy, n: nat, draw: real): int {
    Min(MaxDelay(p) as int, (Backoff(p, n) * draw).Floor)
  }

  ghost predicate PossibleDelay(p: RetryPolicy, n: nat, ms: int) {
    exists draw :: 1.0 - Spread(p) <= draw <= 1.0 + Spread(p) && ms == DelayWith(p, n, draw)
  }

  /** The delay before the attempt that follows attempt number `attempt`. */
  method CalculateRetryDelay(attempt: uint8, p: RetryPolicy, draw: real) returns (ms: int64)
    requires 1.0 - Spread(p) <= draw <= 1.0 + Spread(p)
    ensures ms as int == DelayWith(p, Max(attempt as int - 1, 0), draw)
    ensures 0 <= ms <= MaxDelay(p)
  {
    var backoff := SaturatingBackoff(attempt, InitialDelay(p) as real, Multiplier(p), MaxDelay(p) as real);
    var delay := Jittered(backoff, Spread(p), draw);
    ms := ToMilliseconds(delay, MaxDelay(p));
  }

  /** The multiplication loop. */
  method SaturatingBackoff(attempt: uint8, initial: real, multiplier: real, cap: real) returns (delay: real)
    requires 0.0 <= initial <= cap && 0.0 <= multiplier
    ensures delay == Capped(initial, multiplier, cap, Max(attempt as int - 1, 0)) >= 0.0
  {
    delay := initial;
    var i: uint8 := 1;
    while i < attempt
      invariant 1 <= i && (i <= attempt || (i == 1 && attempt == 0))
      invariant delay == Capped(initial, multiplier, cap, i as int - 1)
    {
      SaturationStep(initial, multiplier, cap, i as int - 1);
      delay := RealMin(delay * multiplier, cap);
      i := i + 1;
    }
    ExponentialRange(initial, multiplier, i as int - 1);
  }

  /** Without spread there is no draw; one could equally say it is always 1. */
  method Jittered(backoff: real, spread: real, draw: real) returns (delay: real)
    requires 0.0 <= backoff && 0.0 <= spread <= 1.0 && 1.0 - spread <= draw <= 1.0 + spread
    ensures delay == backoff * draw >= 0.0
  {
    ProductNonNegative(backoff, draw);
    if spread > 0.0 {
      delay := backoff * draw;
    } else {
      assert draw == 1.0 && backoff * 1.0 == backoff;
      delay := backoff;
    }
  }

  /** Comparing with the maximum before the conversion keeps the conversion in range. */
  method ToMilliseconds(delay: real, most: int64) returns (ms: int64)
    requires 0.0 <= delay && 0 <= most
    ensures ms as int == Min(most as int, delay.Floor)
    ensures 0 <= ms <= most
  {
    if delay >= most as real {
      return most;
    }
    ms := delay.Floor as int64;
  }

  lemma WholeMillisecondsRange(x: real, draw: real, most: int)
    requires 0.0 <= x && 0.0 <= draw && 0 <= most
    ensures 0 <= Min(most, (x * draw).Floor) <= most
  {
    ProductNonNegative(x, draw);
    assert 0.0 <= x * draw;
  }

  lemma BackoffRange(p: RetryPolicy, n: nat)
    ensures 0.0 <= Backoff(p, n) <= MaxDelay(p) as real
  {
    ExponentialRange(InitialDelay(p) as real, Multiplier(p), n);
  }

  /** No allowed delay is negative or longer than the maximum. */
  lemma PossibleDelayRange(p: RetryPolicy, n: nat, ms: int)
    requires PossibleDelay(p, n, ms)
    ensures 0 <= ms <= MaxDelay(p) as int
  {
    var draw :| 1.0 - Spread(p) <= draw <= 1.0 + Spread(p) && ms == DelayWith(p, n, draw);
    BackoffRange(p, n);
    WholeMillisecondsRange(Backoff(p, n), draw, MaxDelay(p) as int);
  }

  /** Jitter apart, the delays are those of the recurrence in the fields as they are given: the first is
      the initial delay, kept within the maximum, and each next one is multiplied and cut off; negative
      fields count as zero, and a multiplier that is not finite as one. */
  lemma BackoffRecurs(p: RetryPolicy, n: nat)
    ensures Backoff(p, 0) == Max(Min(p.initialDelayMs as int, p.maxDelayMs as int), 0) as real
    ensures p.backoffMultiplier.Finite? ==>
              Backoff(p, n + 1) == RealMin(Backoff(p, n) * RealMax(p.backoffMultiplier.value, 0.0),
                                           Max(p.maxDelayMs as int, 0) as real)
    ensures p.backoffMultiplier.NonFinite? ==> Backoff(p, n + 1) == Backoff(p, n)
  {
    var initial, m, most := InitialDelay(p) as real, Multiplier(p), MaxDelay(p) as real;
    SaturationStep(initial, m, most, n);
    BackoffRange(p, n);
    if p.backoffMultiplier.NonFinite? {
      assert Capped(initial, m, most, n) * 1.0 == Capped(initial, m, most, n);
    }
  }

  /** The draws around it reach as far as the jitter factor says, from no jitter to all of the delay; a
      factor that is not finite means no jitter. */
  lemma JitterReaches(p: RetryPolicy, n: nat, ms: int)
    ensures p.jitterFactor.NonFinite? || p.jitterFactor.value <= 0.0 ==>
              (PossibleDelay(p, n, ms) <==> ms == Backoff(p, n).Floor)
    ensures p.jitterFactor.Finite? && p.jitterFactor.value > 0.0 ==>
              var spread := RealMin(p.jitterFactor.value, 1.0);
              PossibleDelay(p, n, ms) <==>
                exists draw :: 1.0 - spread <= draw <= 1.0 + spread && ms == Jogged(p, n, draw)
  {
    BackoffRange(p, n);
    assert Backoff(p, n) * 1.0 == Backoff(p, n);
    assert 1.0 - Spread(p) <= 1.0 <= 1.0 + Spread(p) && DelayWith(p, n, 1.0) == Backoff(p, n).Floor;
    forall draw ensures Jogged(p, n, draw) == DelayWith(p, n, draw) {
    }
    if Spread(p) == 0.0 {
      assert forall draw ::
          1.0 - Spread(p) <= draw <= 1.0 + Spread(p) ==> DelayWith(p, n, draw) == DelayWith(p, n, 1.0);
    }
  }

  /** The backoff after `n` retries times a draw, in whole milliseconds up to the maximum. */
  function Jogged(p: RetryPolicy, n: nat, draw: real): int {
    Min(Max(p.maxDelayMs as int, 0), (Backoff(p, n) * draw).Floor)
  }

  /** The library's policy when none is given. */
  const DEFAULT_POLICY := RetryPolicy(500, 30000, Finite(2.0), Finite(0.1), 3, true, true, true)

  /** With it the first pause takes between 450 and 550 milliseconds, the second twice as long. */
  lemma DefaultPauses(ms: int)
    ensures PossibleDelay(DEFAULT_POLICY, 0, ms) ==> 450 <= ms <= 550
    ensures PossibleDelay(DEFAULT_POLICY, 1, ms) ==> 900 <= ms <= 1100
  {
    BackoffRecurs(DEFAULT_POLICY, 0);
    assert Backoff(DEFAULT_POLICY, 1) == 1000.0;
  }

  /** Jitter apart, and with a multiplier of at least one, delays never shrink from one attempt to the
      next. */
  lemma BackoffGrows(p: RetryPolicy, n: nat)
    requires Multiplier(p) >= 1.0
    ensures Backoff(p, n) <= Backoff(p, n + 1)
  {
    ExponentialGrows(InitialDelay(p) as real, Multiplier(p), n);
  }

  lemma ExponentialGrows(initial: real, m: real, n: nat)
    requires 0.0 <= initial && 1.0 <= m
    ensures Exponential(initial, m, n) <= Exponential(initial, m, n + 1)
  {
    ExponentialRange(initial, m, n);
    var x := Exponential(initial, m, n);
    Grows(m, x);
    assert x <= m * x == Exponential(initial, m, n + 1);
  }
}
