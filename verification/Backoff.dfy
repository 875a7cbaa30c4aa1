/** The delay before a retry: computed with saturating 32-bit arithmetic, equal to the
    unbounded formula it stands for. */
module Backoff {
  import opened Types

  const U32_MAX: u32 := U32_LIMIT - 1

  function Min(a: nat, b: nat): nat {
    if a < b then a else b
  }

  function Power(n: nat): (r: nat)
    ensures r > 0
  {
    if n == 0 then 1 else 2 * Power(n - 1)
  }

  function SaturatingMul(a: u32, b: u32): u32 {
    if a * b < U32_LIMIT then a * b else U32_MAX
  }

  /** 2 raised to n by saturating multiplications. */
  function SaturatingPower(n: u32): u32 {
    if n == 0 then 1 else SaturatingMul(2, SaturatingPower(n - 1))
  }

  /** The seconds to wait after the given attempt failed. */
  function Delay(policy: RetryPolicy, attempt: u32): u32 {
    Min(SaturatingMul(policy.minBackoff, SaturatingPower(attempt)), policy.maxBackoff)
  }

  lemma {:induction false} PowerSaturates(n: u32)
    ensures SaturatingPower(n) == Min(Power(n), U32_MAX)
  {
    if n > 0 {
      PowerSaturates(n - 1);
    }
  }

  lemma ProductGrows(a: nat, b: nat, c: nat)
    requires b <= c
    ensures a * b <= a * c
  {
  }

  /** Saturation never shows: the delay is min(min * 2^attempt, max) over unbounded integers. */
  lemma DelayIsExact(policy: RetryPolicy, attempt: u32)
    ensures Delay(policy, attempt) == Min(policy.minBackoff * Power(attempt), policy.maxBackoff)
  {
    PowerSaturates(attempt);
    var a, b := policy.minBackoff, Power(attempt);
    if a == 0 {
    } else if b >= U32_MAX {
      ProductGrows(b, 1, a);
      ProductGrows(U32_MAX, 1, a);
    }
  }

  /** The first delays of the default policy, in seconds. */
  lemma DefaultDelays()
    ensures Delay(DEFAULT_RETRY, 0) == 10 && Delay(DEFAULT_RETRY, 1) == 20 && Delay(DEFAULT_RETRY, 2) == 40
    ensures Delay(DEFAULT_RETRY, 3) == 80 && Delay(DEFAULT_RETRY, 4) == 160 && Delay(DEFAULT_RETRY, 5) == 320
    ensures forall n: u32 :: n >= 6 ==> Delay(DEFAULT_RETRY, n) == 600
  {
    hide Delay;
    forall n: u32
      ensures Delay(DEFAULT_RETRY, n) == Min(10 * Power(n), 600)
    {
      DelayIsExact(DEFAULT_RETRY, n);
    }
    assert Power(2) == 4 && Power(3) == 8 && Power(4) == 16 && Power(5) == 32 && Power(6) == 64;
    forall n: u32 | n >= 6
      ensures Power(n) >= 64
    {
      PowerGrows(6, n);
    }
  }

  lemma {:induction false} PowerGrows(m: nat, n: nat)
    requires m <= n
    ensures Power(m) <= Power(n)
    decreases n
  {
    if m < n {
      PowerGrows(m, n - 1);
    }
  }

  lemma DelayGrows(policy: RetryPolicy, earlier: u32, later: u32)
    requires earlier <= later
    ensures Delay(policy, earlier) <= Delay(policy, later) <= policy.maxBackoff
  {
    DelayIsExact(policy, earlier);
    DelayIsExact(policy, later);
    PowerGrows(earlier, later);
    ProductGrows(policy.minBackoff, Power(earlier), Power(later));
  }

  /** What a task has waited, in seconds, when it has failed `retries` times. */
  function Waited(policy: RetryPolicy, retries: u32): nat {
    if retries == 0 then 0 else Waited(policy, retries - 1) + Delay(policy, retries - 1)
  }

  lemma Doubling(a: nat, b: nat)
    ensures a * (b - 1) + a * b == a * (2 * b - 1)
  {
  }

  lemma {:induction false} WaitedBound(policy: RetryPolicy, retries: u32)
    ensures Waited(policy, retries) <= policy.minBackoff * (Power(retries) - 1)
    ensures Waited(policy, retries) <= retries * policy.maxBackoff
  {
    if retries > 0 {
      var r := retries - 1;
      WaitedBound(policy, r);
      DelayIsExact(policy, r);
      Doubling(policy.minBackoff, Power(r));
      assert retries * policy.maxBackoff == r * policy.maxBackoff + policy.maxBackoff;
    }
  }
}
