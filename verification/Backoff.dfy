/** The retry delay shared by the outbox publisher and the delivery worker. */
module Backoff {
  import opened Vocabulary

  const MAX_EXPONENT := 30

  function Pow2(n: nat): (p: nat)
    ensures p >= 1
  {
    if n == 0 then 1 else 2 * Pow2(n - 1)
  }

  function RetryDelayMs(base: nat, cap: nat, attempt: int): nat {
    var exponent := Min(Max(attempt - 1, 0), MAX_EXPONENT);
    Min(base * Pow2(exponent), cap)
  }

  lemma {:induction false} Pow2Grows(m: nat, n: nat)
    requires m <= n
    ensures Pow2(m) <= Pow2(n)
    decreases n
  {
    if m < n {
      Pow2Grows(m, n - 1);
    }
  }

  lemma ScaledPow2Grows(base: nat, m: nat, n: nat)
    requires m <= n
    ensures base * Pow2(m) <= base * Pow2(n)
  {
  }

  /** Later attempts never wait less, and no attempt waits longer than the cap. */
  lemma DelayMonotone(base: nat, cap: nat, m: int, n: int)
    requires m <= n
    ensures RetryDelayMs(base, cap, m) <= RetryDelayMs(base, cap, n) <= cap
  {
    ScaledPow2Grows(base, Min(Max(m - 1, 0), MAX_EXPONENT), Min(Max(n - 1, 0), MAX_EXPONENT));
  }

  /** The unclamped schedule. */
  function Doubling(base: nat, cap: nat, attempt: nat): nat
    requires attempt >= 1
  {
    Min(base * Pow2(attempt - 1), cap)
  }

  lemma DelayDoubles(base: nat, cap: nat, n: nat)
    requires n >= 1 && (n <= MAX_EXPONENT + 1 || cap <= base * Pow2(MAX_EXPONENT))
    ensures RetryDelayMs(base, cap, n) == Doubling(base, cap, n)
  {
    if n - 1 > MAX_EXPONENT {
      ScaledPow2Grows(base, MAX_EXPONENT, n - 1);
    }
  }

  /** The exponent clamp is invisible at every attempt exactly when the cap is within its reach. */
  lemma ClampInvisible(base: nat, cap: nat)
    requires base >= 1
    ensures (forall n: nat :: n >= 1 ==> RetryDelayMs(base, cap, n) == Doubling(base, cap, n))
       <==> cap <= base * Pow2(MAX_EXPONENT)
  {
    if cap <= base * Pow2(MAX_EXPONENT) {
      forall n: nat | n >= 1 ensures RetryDelayMs(base, cap, n) == Doubling(base, cap, n) {
        DelayDoubles(base, cap, n);
      }
    } else {
      var n := MAX_EXPONENT + 2;
      TwiceAsLong(base, MAX_EXPONENT);
      assert RetryDelayMs(base, cap, n) == base * Pow2(MAX_EXPONENT);
      assert RetryDelayMs(base, cap, n) != Doubling(base, cap, n);
    }
  }

  lemma TwiceAsLong(base: nat, n: nat)
    ensures base * Pow2(n + 1) == 2 * (base * Pow2(n))
    ensures base >= 1 ==> base * Pow2(n) >= 1
  {
  }

  /** The waits scheduled after failed attempts 1 to k. */
  function TotalWait(base: nat, cap: nat, k: nat): nat {
    if k == 0 then 0 else TotalWait(base, cap, k - 1) + RetryDelayMs(base, cap, k)
  }

  /** k attempts have k - 1 waits between them, bounded by a geometric sum. */
  lemma {:induction false} TotalWaitBounded(base: nat, cap: nat, k: nat)
    requires k >= 1
    ensures TotalWait(base, cap, k - 1) <= base * Pow2(k - 1) - base
  {
    if k > 1 {
      TotalWaitBounded(base, cap, k - 1);
      ScaledPow2Grows(base, Min(k - 2, MAX_EXPONENT), k - 2);
      TwiceAsLong(base, k - 2);
    } else {
      assert base * Pow2(0) == base;
    }
  }
}
