/** The two capped doubling loops, in 64-bit arithmetic, against the closed form min(base * 2^(n-1), max). */
module Backoff {
  import opened Basics
  import opened Domain

  newtype int64 = x: int | -0x8000_0000_0000_0000 <= x < 0x8000_0000_0000_0000

  datatype RetryPolicy = RetryPolicy(maxRetries: int, baseDelay: Duration, maxDelay: Duration)

  function ValidatePolicy(p: RetryPolicy): Result<()>
  {
    if p.maxRetries < 0 then Err(InvalidMaxRetries)
    else if p.baseDelay <= 0 then Err(InvalidBaseDelay)
    else if p.maxDelay < p.baseDelay then Err(InvalidMaxDelay)
    else Ok(())
  }

  function Min(a: int, b: int): int { if a < b then a else b }
  function Max(a: int, b: int): int { if a < b then b else a }

  function Pow2(n: nat): nat { if n == 0 then 1 else 2 * Pow2(n - 1) }

  /** The closed form: the n-th delay cap. */
  function Cap(base: Duration, max: Duration, n: nat): Duration
    requires n >= 1
  {
    Min(base * Pow2(n - 1), max)
  }

  /** Once the cap is reached it stays reached. */
  lemma {:induction false} CapReached(base: Duration, max: Duration, m: nat, n: nat)
    requires 0 < base <= max && 1 <= m <= n
    requires base * Pow2(m - 1) >= max
    ensures Cap(base, max, n) == max
    decreases n - m
  {
    if m < n {
      assert base * Pow2(m) == 2 * (base * Pow2(m - 1));
      CapReached(base, max, m + 1, n);
    }
  }

  /** The jittered delay between half the cap and the cap, raised to retry-after. `seed` is the random draw. */
  function JitteredDelay(cap: Duration, retryAfter: Duration, seed: nat): (d: Duration)
    requires cap > 0
    ensures Max(cap / 2, retryAfter) <= d <= Max(cap, retryAfter)
    ensures d > 0
  {
    var half := cap / 2;
    var delay := if half > 0 then half + seed % (half + 1) else cap;
    if retryAfter > delay then retryAfter else delay
  }

  /** The draw spreads the delays over that range: each from half the cap up to twice that half comes of some draw, unless
      more was asked for, and no other does. */
  lemma JitterSpread(cap: Duration, retryAfter: Duration, d: Duration)
    requires cap > 1
    ensures (exists seed: nat :: JitteredDelay(cap, retryAfter, seed) == d) <==>
              retryAfter <= d && (cap / 2 <= d <= 2 * (cap / 2) || (d == retryAfter && d > cap / 2))
  {
    var half := cap / 2;
    if half <= d <= 2 * half && retryAfter <= d {
      assert (d - half) % (half + 1) == d - half;
      assert JitteredDelay(cap, retryAfter, d - half) == d;
    } else if d == retryAfter && d > half {
      assert 0 % (half + 1) == 0;
      assert JitteredDelay(cap, retryAfter, 0) == d;
    }
    if seed: nat :| JitteredDelay(cap, retryAfter, seed) == d {
      assert 0 <= seed % (half + 1) <= half;
    }
  }

  function Delay(p: RetryPolicy, retryCount: int, retryAfter: Duration, seed: nat): Result<Duration>
  {
    match ValidatePolicy(p)
    case Err(e) => Err(e)
    case Ok(_) =>
      if retryCount < 1 || retryCount > p.maxRetries then Err(InvalidRetryCount)
      else if retryAfter < 0 then Err(InvalidRetryAfter)
      else
        CapMonotone(p.baseDelay, p.maxDelay, retryCount, retryCount);
        Ok(JitteredDelay(Cap(p.baseDelay, p.maxDelay, retryCount), retryAfter, seed))
  }

  /** The doubling loop shared by both delays: every intermediate value is a 64-bit integer. */
  method DoubleUpTo(base: int64, maximum: int64, count: int64) returns (delay: int64)
    requires 0 < base <= maximum && count >= 1
    ensures delay as int == Cap(base as int, maximum as int, count as int)
  {
    delay := base;
    var attempt: int64 := 1;
    while attempt < count && delay < maximum
      invariant 1 <= attempt <= count && base <= delay <= maximum
      invariant delay as int == base as int * Pow2(attempt as int - 1)
      decreases count - attempt
    {
      assert Pow2(attempt as int) == 2 * Pow2(attempt as int - 1);
      assert base as int * Pow2(attempt as int) == 2 * (delay as int);
      if delay > maximum / 2 {
        CapReached(base as int, maximum as int, attempt as int + 1, count as int);
        return maximum;
      }
      delay := delay * 2;
      attempt := attempt + 1;
    }
    if attempt < count {
      CapReached(base as int, maximum as int, attempt as int, count as int);
    }
  }

  /** BackoffCalculator.Delay on machine integers. */
  method ComputeDelay(maxRetries: int64, baseDelay: int64, maxDelay: int64, retryCount: int64, retryAfter: int64,
                      seed: nat) returns (r: Result<int64>)
    ensures var spec := Delay(RetryPolicy(maxRetries as int, baseDelay as int, maxDelay as int),
                              retryCount as int, retryAfter as int, seed);
            match r
            case Err(e) => spec == Err(e)
            case Ok(d) => spec == Ok(d as int)
  {
    if maxRetries < 0 { return Err(InvalidMaxRetries); }
    if baseDelay <= 0 { return Err(InvalidBaseDelay); }
    if maxDelay < baseDelay { return Err(InvalidMaxDelay); }
    if retryCount < 1 || retryCount > maxRetries { return Err(InvalidRetryCount); }
    if retryAfter < 0 { return Err(InvalidRetryAfter); }
    var capDelay := DoubleUpTo(baseDelay, maxDelay, retryCount);
    var half := capDelay / 2;
    var delay := half;
    if half > 0 {
      var draw := seed % (half as int + 1);
      delay := delay + draw as int64;
    } else {
      delay := capDelay;
    }
    return Ok(if retryAfter > delay then retryAfter else delay);
  }

  const SECOND: int64 := 1_000_000_000

  /** The runtime's wait between failed claims, with its defaults for a bad base or maximum. */
  method ClaimRetryDelay(base: int64, maximum: int64, failures: int64) returns (delay: int64)
    ensures var b := if base <= 0 then SECOND as int else base as int;
            delay as int == Cap(b, Max(b, maximum as int), Max(1, failures as int))
  {
    var b := if base <= 0 then SECOND else base;
    var m := if maximum < b then b else maximum;
    if failures <= 1 {
      return b;
    }
    delay := DoubleUpTo(b, m, failures);
  }

  /** Waiting longer never shortens the cap, and the cap stays between base and max. */
  lemma {:induction false} CapMonotone(base: Duration, max: Duration, m: nat, n: nat)
    requires 0 < base <= max && 1 <= m <= n
    ensures base <= Cap(base, max, m) <= Cap(base, max, n) <= max
    decreases n
  {
    if n > 1 {
      assert base * Pow2(n - 1) == 2 * (base * Pow2(n - 2));
      CapMonotone(base, max, if m < n then m else m - 1, n - 1);
    }
  }

  /** For a valid policy and a count within it a delay always exists, positive and within the promised bounds. */
  lemma DelayBounds(p: RetryPolicy, retryCount: int, retryAfter: Duration, seed: nat)
    requires ValidatePolicy(p).Ok? && 1 <= retryCount <= p.maxRetries && retryAfter >= 0
    ensures Delay(p, retryCount, retryAfter, seed).Ok?
    ensures var d := Delay(p, retryCount, retryAfter, seed).value;
            var cap := Cap(p.baseDelay, p.maxDelay, retryCount);
            && 0 < cap <= p.maxDelay
            && d > 0
            && Max(cap / 2, retryAfter) <= d <= Max(cap, retryAfter)
  {
    CapMonotone(p.baseDelay, p.maxDelay, retryCount, retryCount);
  }
}
