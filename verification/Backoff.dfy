/** Exponential backoff with a cap, as delivery retries and reconnects use it. */
module Backoff {
  import opened Common

  /** base * 2^(attempt - 1), at most `maximum`. */
  function Delay(base: int, maximum: int, attempt: nat): int
    requires attempt >= 1
  {
    MinInt(base * Pow2(attempt - 1), maximum)
  }

  /** Delays double from attempt to attempt until the cap, lie within [base, maximum] and never shrink. */
  lemma {:induction false} DelayGrowsWithinBounds(base: int, maximum: int, attempt: nat)
    requires 0 < base <= maximum && attempt >= 1
    ensures base <= Delay(base, maximum, attempt) <= Delay(base, maximum, attempt + 1) <= maximum
    ensures Delay(base, maximum, attempt + 1) == MinInt(2 * Delay(base, maximum, attempt), maximum)
  {
    var power := Pow2(attempt - 1);
    assert base * Pow2(attempt) == 2 * (base * power);
    ProductAtLeast(base, power);
  }

  /** With enough attempts every delay is the cap. */
  lemma {:induction false} DelaySaturates(base: int, maximum: int, attempt: nat)
    requires 0 < base <= maximum && attempt >= maximum
    ensures Delay(base, maximum, attempt) == maximum
  {
    Pow2Exceeds(attempt - 1);
    var power := Pow2(attempt - 1);
    ProductAtLeast(power, base);
    assert base * power == power * base;
  }

  lemma {:induction false} Pow2Exceeds(n: nat)
    ensures Pow2(n) > n
  {
    if n > 0 { Pow2Exceeds(n - 1); }
  }

  lemma ProductAtLeast(a: int, b: int)
    requires a > 0 && b >= 1
    ensures a * b >= a
  {
  }
}
