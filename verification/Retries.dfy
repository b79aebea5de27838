/** Retry with capped exponential backoff (crates/securedeploy-resilience/src/retry.rs).
    Sleeping is a recorded list of delays, the operation a function from the call
    number to its outcome. */
module Retries {
  import opened Machine

  const U128_MAX: int := 0xFFFF_FFFF_FFFF_FFFF_FFFF_FFFF_FFFF_FFFF

  /** `std::time::Duration`. */
  datatype RawDuration = Duration(secs: u64, nanos: int)
  type Duration = d: RawDuration | 0 <= d.nanos < 1_000_000_000 witness Duration(0, 0)

  function Nanoseconds(d: Duration): nat {
    d.secs * 1_000_000_000 + d.nanos
  }

  /** `as_millis`, a u128: the whole milliseconds in a duration. */
  function AsMillis(d: Duration): (ms: nat)
    ensures ms * 1_000_000 <= Nanoseconds(d) < (ms + 1) * 1_000_000
  {
    d.secs * 1000 + d.nanos / 1_000_000
  }

  /** `Duration::from_millis`. */
  function FromMillis(ms: u64): (d: Duration)
    ensures Nanoseconds(d) == ms * 1_000_000
    ensures AsMillis(d) == ms
  {
    Duration(ms / 1000, ms % 1000 * 1_000_000)
  }

  datatype RetryPolicy = RetryPolicy(
    maxAttempts: u32,
    initialBackoff: Duration,
    multiplier: u32,
    maxBackoff: Duration)

  function Pow(b: nat, e: nat): nat {
    if e == 0 then 1 else b * Pow(b, e - 1)
  }

  function Min(a: nat, b: nat): nat {
    if a <= b then a else b
  }

  /** `u32::saturating_pow`. */
  function SaturatingPow(b: u32, e: u32): u32 {
    Min(Pow(b, e), U32_MAX)
  }

  /** `u128::saturating_mul`. */
  function SaturatingMul(a: nat, b: nat): nat {
    Min(a * b, U128_MAX)
  }

  /** `n as u64`. */
  function TruncU64(n: nat): (r: u64)
    ensures r <= n
    ensures r == n <==> n <= U64_MAX
    ensures exists wraps: nat :: n == r + wraps * 0x1_0000_0000_0000_0000
  {
    var wraps := n / 0x1_0000_0000_0000_0000;
    assert n == n % 0x1_0000_0000_0000_0000 + wraps * 0x1_0000_0000_0000_0000;
    n % 0x1_0000_0000_0000_0000
  }

  /** `RetryPolicy::backoff_for`. */
  function BackoffFor(p: RetryPolicy, attempt: u32): Duration {
    var factor := SaturatingPow(p.multiplier, attempt);
    var millis := SaturatingMul(AsMillis(p.initialBackoff), factor);
    var capped := Min(millis, AsMillis(p.maxBackoff));
    FromMillis(TruncU64(capped))
  }

  /** The backoff in unbounded arithmetic: initial * multiplier^attempt, capped. */
  function Ideal(p: RetryPolicy, attempt: nat): nat {
    Min(AsMillis(p.initialBackoff) * Pow(p.multiplier, attempt), AsMillis(p.maxBackoff))
  }

  lemma ProductFits(d: Duration, factor: u32)
    ensures AsMillis(d) * factor <= U128_MAX
  {
    var m := AsMillis(d);
    assert m <= U64_MAX * 1000 + 999;
    MulMonotone(m, U64_MAX * 1000 + 999, factor);
    MulMonotone(factor, U32_MAX, U64_MAX * 1000 + 999);
  }

  lemma MulMonotone(a: nat, b: nat, c: nat)
    requires a <= b
    ensures a * c <= b * c && c * a <= c * b
  {
  }

  lemma MulStrict(a: nat, b: nat, c: nat)
    requires a < b && 0 < c
    ensures c * a < c * b
  {
  }

  /** The backoff before the cast to u64. */
  function Capped(p: RetryPolicy, attempt: u32): nat {
    Min(AsMillis(p.initialBackoff) * SaturatingPow(p.multiplier, attempt), AsMillis(p.maxBackoff))
  }

  /** The u128 product never saturates, so a delay is the capped product as a u64,
      and no delay ever exceeds the configured maximum. */
  lemma BackoffIsCapped(p: RetryPolicy, attempt: u32)
    ensures AsMillis(BackoffFor(p, attempt)) == TruncU64(Capped(p, attempt))
    ensures AsMillis(BackoffFor(p, attempt)) <= AsMillis(p.maxBackoff)
  {
    ProductFits(p.initialBackoff, SaturatingPow(p.multiplier, attempt));
  }

  /** The power overflows a u32 and neither a zero delay nor the cap hides it. */
  ghost predicate SaturationShows(p: RetryPolicy, attempt: u32) {
    && Pow(p.multiplier, attempt) > U32_MAX
    && AsMillis(p.initialBackoff) > 0
    && AsMillis(p.maxBackoff) > AsMillis(p.initialBackoff) * U32_MAX
  }

  lemma PowerFits(p: RetryPolicy, attempt: u32)
    requires Pow(p.multiplier, attempt) <= U32_MAX
    ensures AsMillis(BackoffFor(p, attempt)) == Ideal(p, attempt) <==> Ideal(p, attempt) <= U64_MAX
  {
    BackoffIsCapped(p, attempt);
    assert Capped(p, attempt) == Ideal(p, attempt);
  }

  lemma PowerSaturates(p: RetryPolicy, attempt: u32)
    requires Pow(p.multiplier, attempt) > U32_MAX
    ensures AsMillis(BackoffFor(p, attempt)) == Ideal(p, attempt)
            <==> Ideal(p, attempt) <= U64_MAX && !SaturationShows(p, attempt)
  {
    var initial, cap, power := AsMillis(p.initialBackoff), AsMillis(p.maxBackoff), Pow(p.multiplier, attempt);
    MulMonotone(0, initial, power);
    var saturated, exact := initial * U32_MAX, initial * power;
    BackoffIsCapped(p, attempt);
    assert SaturatingPow(p.multiplier, attempt) == U32_MAX;
    assert Capped(p, attempt) == Min(saturated, cap) && Ideal(p, attempt) == Min(exact, cap);
    if initial > 0 {
      MulStrict(U32_MAX, power, initial);
    }
    MaskedSaturation(saturated, exact, cap, initial == 0);
  }

  /** Exactly when the machine arithmetic computes the ideal backoff: the ideal
      fits a u64, and the power fits a u32 or its saturation is masked, by a zero
      initial delay or by the cap. */
  lemma BackoffExact(p: RetryPolicy, attempt: u32)
    ensures AsMillis(BackoffFor(p, attempt)) == Ideal(p, attempt)
            <==> Ideal(p, attempt) <= U64_MAX && !SaturationShows(p, attempt)
  {
    if Pow(p.multiplier, attempt) <= U32_MAX {
      PowerFits(p, attempt);
    } else {
      PowerSaturates(p, attempt);
    }
  }

  /** A saturated product below the true one shows unless both are cut off. */
  lemma MaskedSaturation(saturated: nat, exact: nat, cap: nat, zero: bool)
    requires if zero then saturated == exact == 0 else saturated < exact
    ensures TruncU64(Min(saturated, cap)) == Min(exact, cap)
            <==> Min(exact, cap) <= U64_MAX && (zero || cap <= saturated)
  {
  }

  lemma {:induction false} PowGrows(b: nat, e: nat, f: nat)
    requires 1 <= b && e <= f
    ensures 1 <= Pow(b, e) <= Pow(b, f)
    decreases f
  {
    if e == f {
      PowPositive(b, e);
    } else {
      PowGrows(b, e, f - 1);
      MulMonotone(1, b, Pow(b, f - 1));
    }
  }

  lemma {:induction false} PowPositive(b: nat, e: nat)
    requires 1 <= b
    ensures 1 <= Pow(b, e)
  {
    if e == 0 {
    } else {
      PowPositive(b, e - 1);
      MulMonotone(1, b, Pow(b, e - 1));
    }
  }

  /** Delays never shrink from one attempt to a later one, for a multiplier of at
      least 1 and a cap below 2^64 ms. */
  lemma BackoffMonotone(p: RetryPolicy, a: u32, b: u32)
    requires a <= b && p.multiplier >= 1 && AsMillis(p.maxBackoff) <= U64_MAX
    ensures AsMillis(BackoffFor(p, a)) <= AsMillis(BackoffFor(p, b))
  {
    BackoffIsCapped(p, a);
    BackoffIsCapped(p, b);
    PowGrows(p.multiplier, a, b);
    MulMonotone(SaturatingPow(p.multiplier, a), SaturatingPow(p.multiplier, b), AsMillis(p.initialBackoff));
  }

  // ---------- the loop ----------

  function Attempts(p: RetryPolicy): nat {
    if p.maxAttempts == 0 then 1 else p.maxAttempts
  }

  /** The delays slept after the first `n` failed attempts. */
  function Delays(p: RetryPolicy, n: nat): seq<Duration>
    requires n <= U32_MAX
  {
    if n == 0 then [] else Delays(p, n - 1) + [BackoffFor(p, n - 1)]
  }

  function TotalMillis(delays: seq<Duration>): nat {
    if |delays| == 0 then 0 else TotalMillis(delays[..|delays| - 1]) + AsMillis(delays[|delays| - 1])
  }

  /** `retry`: `op(i)` is the outcome of call number `i`. It returns the first
      success among the attempts, or else the last error; it sleeps between
      attempts and not after the last. */
  method Retry<T, E>(p: RetryPolicy, op: nat -> Result<T, E>)
    returns (r: Result<T, E>, calls: nat, slept: seq<Duration>)
    ensures 1 <= calls <= Attempts(p)
    ensures if p.maxAttempts == 0 then calls == 1 else calls <= p.maxAttempts
    ensures r.Err? && p.maxAttempts > 0 ==> calls == p.maxAttempts
    ensures forall i :: 0 <= i < calls - 1 ==> op(i).Err?
    ensures r == op(calls - 1)
    ensures r.Err? ==> calls == Attempts(p)
    ensures slept == Delays(p, calls - 1)
  {
    var attempts := if p.maxAttempts >= 1 then p.maxAttempts else 1;
    var lastErr: Option<E> := None;
    calls, slept := 0, [];
    for attempt := 0 to attempts
      invariant calls == attempt
      invariant forall i :: 0 <= i < attempt ==> op(i).Err?
      invariant attempt > 0 ==> lastErr.Some? && op(attempt - 1) == Err(lastErr.value)
      invariant slept == Delays(p, if attempt < attempts then attempt else attempts - 1)
    {
      calls := calls + 1;
      var outcome := op(attempt);
      match outcome {
        case Ok(value) => return Ok(value), calls, slept;
        case Err(err) =>
          lastErr := Some(err);
          if attempt + 1 < attempts {
            slept := slept + [BackoffFor(p, attempt)];
          }
      }
    }
    r := Err(lastErr.value);
  }

  lemma MulDistributes(n: nat, c: nat)
    requires n > 0
    ensures n * c == (n - 1) * c + c
  {
  }

  /** The delays before call number n+1 are n in number, are the backoffs of the
      attempts before it in order, and sum to at most n times the maximum. */
  lemma DelaysBounded(p: RetryPolicy, n: nat, i: nat)
    requires i < n <= U32_MAX
    ensures |Delays(p, n)| == n
    ensures Delays(p, n)[i] == BackoffFor(p, i)
    ensures TotalMillis(Delays(p, n)) <= n * AsMillis(p.maxBackoff)
  {
    DelaysAt(p, n, i);
    DelaysTotal(p, n);
  }

  lemma {:induction false} DelaysAt(p: RetryPolicy, n: nat, i: nat)
    requires i < n <= U32_MAX
    ensures |Delays(p, n)| == n && Delays(p, n)[i] == BackoffFor(p, i)
  {
    if n == 1 {
      assert Delays(p, 0) == [];
    } else {
      DelaysAt(p, n - 1, if i < n - 1 then i else 0);
    }
  }

  lemma TotalSnoc(delays: seq<Duration>, d: Duration)
    ensures TotalMillis(delays + [d]) == TotalMillis(delays) + AsMillis(d)
  {
    assert (delays + [d])[..|delays|] == delays;
  }

  lemma {:induction false} DelaysTotal(p: RetryPolicy, n: nat)
    requires n <= U32_MAX
    ensures TotalMillis(Delays(p, n)) <= n * AsMillis(p.maxBackoff)
  {
    if n == 0 {
    } else {
      DelaysTotal(p, n - 1);
      TotalSnoc(Delays(p, n - 1), BackoffFor(p, n - 1));
      BackoffIsCapped(p, n - 1);
      MulDistributes(n, AsMillis(p.maxBackoff));
    }
  }
}
