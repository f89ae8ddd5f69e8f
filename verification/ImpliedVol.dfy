/** Implied volatility by bisection. The pricing formula is a parameter: any function of sigma. */
module ImpliedVol {
  import opened Common

  const LOW: real := 0.0001
  const HIGH: real := 5.0
  const ITERATIONS: nat := 64
  const RELATIVE_TOLERANCE: real := 0.000000001

  type Pricer = real -> real

  ghost predicate StrictlyIncreasing(f: Pricer) {
    forall x, y | LOW <= x < y <= HIGH :: f(x) < f(y)
  }

  function Tolerance(price: real): real { RELATIVE_TOLERANCE * MaxReal(1.0, price) }

  predicate Bracketed(f: Pricer, price: real) {
    f(LOW) - Tolerance(price) <= price <= f(HIGH) + Tolerance(price)
  }

  /** `n` halvings of the interval, keeping the end that prices below on the left. */
  function Bisect(f: Pricer, price: real, lo: real, hi: real, n: nat): real
    decreases n
  {
    var mid := 0.5 * (lo + hi);
    if n == 0 then mid
    else if f(mid) < price then Bisect(f, price, mid, hi, n - 1)
    else Bisect(f, price, lo, mid, n - 1)
  }

  function Invert(f: Pricer, price: real, tau: real): Option<real> {
    if price < 0.0 || tau <= 0.0 || !Bracketed(f, price) then None
    else Some(Bisect(f, price, LOW, HIGH, ITERATIONS))
  }

  method ImpliedVolatility(f: Pricer, price: real, tau: real) returns (sigma: Option<real>)
    ensures sigma == Invert(f, price, tau)
  {
    if price < 0.0 || tau <= 0.0 { return None; }
    var lo, hi := LOW, HIGH;
    var tolerance := RELATIVE_TOLERANCE * MaxReal(1.0, price);
    if price < f(lo) - tolerance || price > f(hi) + tolerance { return None; }
    for k := 0 to ITERATIONS
      invariant Bisect(f, price, lo, hi, ITERATIONS - k) == Bisect(f, price, LOW, HIGH, ITERATIONS)
    {
      var mid := 0.5 * (lo + hi);
      if f(mid) < price {
        lo := mid;
      } else {
        hi := mid;
      }
    }
    return Some(0.5 * (lo + hi));
  }

  /** There is no volatility exactly for a negative price, without time left, and for a price that lies outside what the
      ends of the bracket, 0.0001 and 5, price at, by more than a billionth of itself or of one. */
  lemma InvertsExactly(f: Pricer, price: real, tau: real)
    ensures var slack := if price > 1.0 then price / 1_000_000_000.0 else 0.000000001;
      Invert(f, price, tau).None? <==> price < 0.0 || tau <= 0.0 || price < f(0.0001) - slack || price > f(5.0) + slack
  {
    hide Bisect;
  }

  // ----- accuracy -----

  function Halved(width: real, n: nat): real {
    if n == 0 then width else Halved(width, n - 1) / 2.0
  }

  lemma {:induction false} HalvedIsQuotient(width: real, n: nat)
    ensures Halved(width, n) * Pow2(n) as real == width
  {
    if n > 0 {
      HalvedIsQuotient(width, n - 1);
      Regroup(Halved(width, n - 1), Pow2(n - 1) as real);
    }
  }

  lemma Regroup(h: real, p: real)
    ensures (h / 2.0) * (2.0 * p) == h * p
  {
  }

  /** Where the price lies on the bracket: every volatility below prices below it, none above does. */
  ghost predicate Crosses(f: Pricer, price: real, c: real) {
    && LOW <= c <= HIGH
    && (forall x | LOW <= x <= HIGH && x < c :: f(x) < price)
    && (forall x | LOW <= x <= HIGH && x > c :: f(x) >= price)
  }

  /** The interval keeps the crossing and halves: `n` steps leave half of the `n`-times-halved width. */
  lemma {:induction false} BisectClosesIn(f: Pricer, price: real, lo: real, hi: real, n: nat, c: real)
    requires Crosses(f, price, c) && LOW <= lo <= c <= hi <= HIGH
    ensures var w := Halved(hi - lo, n + 1); c - w <= Bisect(f, price, lo, hi, n) <= c + w
    decreases n
  {
    var mid := 0.5 * (lo + hi);
    if n > 0 {
      HalfFirst(hi - lo, n);
      if f(mid) < price {
        assert c >= mid;
        BisectClosesIn(f, price, mid, hi, n - 1, c);
      } else {
        assert c <= mid;
        BisectClosesIn(f, price, lo, mid, n - 1, c);
      }
    } else {
      assert Halved(hi - lo, 1) == Halved(hi - lo, 0) / 2.0;
    }
  }

  lemma {:induction false} HalfFirst(width: real, n: nat)
    ensures Halved(width / 2.0, n) == Halved(width, n + 1)
  {
    if n > 0 { HalfFirst(width, n - 1); }
  }

  /** The bracket that is left after 64 steps, over two to the 65th power. */
  lemma FinalWidth()
    ensures Halved(HIGH - LOW, 65) == 4.9999 / 36893488147419103232.0
  {
    hide Halved, Pow2;
    HalvedIsQuotient(HIGH - LOW, 65);
    PowerOf65();
    assert Pow2(65) as real == 36893488147419103232.0;
    assert HIGH - LOW == 4.9999;
    Quotient(Halved(HIGH - LOW, 65), 36893488147419103232.0, 4.9999);
  }

  lemma Quotient(h: real, p: real, width: real)
    requires p > 0.0 && h * p == width
    ensures h == width / p
  {
  }

  lemma PowerOf65()
    ensures Pow2(65) == 36893488147419103232
  {
    hide Pow2;
    SmallPowers();
    Doubles(5, 8);
    Doubles(13, 13);
    Doubles(13, 26);
    Doubles(26, 39);
  }

  lemma SmallPowers()
    ensures Pow2(5) == 32 && Pow2(8) == 256
  {
  }

  lemma {:induction false} Doubles(m: nat, n: nat)
    ensures Pow2(m + n) == Pow2(m) * Pow2(n)
  {
    if n > 0 {
      Doubles(m, n - 1);
      assert Pow2(m + n) == 2 * Pow2(m + (n - 1));
    }
  }

  lemma InversionIsAccurate(f: Pricer, price: real, tau: real, c: real)
    requires Crosses(f, price, c) && Invert(f, price, tau).Some?
    ensures var error := 4.9999 / 36893488147419103232.0;
      c - error <= Invert(f, price, tau).value <= c + error
  {
    hide Crosses, Bisect, Halved;
    FinalWidth();
    CrossingIsInside(f, price, c);
    BisectClosesIn(f, price, LOW, HIGH, ITERATIONS, c);
  }

  lemma CrossingIsInside(f: Pricer, price: real, c: real)
    requires Crosses(f, price, c)
    ensures LOW <= c <= HIGH
  {
  }

  /** `n` steps end in the middle of a bracket of the `n`-times-halved width. Its left end prices below the
      price unless it is still the first one, and its right end does not. */
  ghost predicate EndsBracket(f: Pricer, price: real, lo: real, hi: real, n: nat, a: real, b: real) {
    && lo <= a < b <= hi && b - a == Halved(hi - lo, n)
    && (a == lo || f(a) < price) && (b == hi || f(b) >= price)
    && Bisect(f, price, lo, hi, n) == 0.5 * (a + b)
  }

  lemma {:induction false} BisectEndsBracket(f: Pricer, price: real, lo: real, hi: real, n: nat) returns (a: real, b: real)
    requires lo < hi
    ensures EndsBracket(f, price, lo, hi, n, a, b)
    decreases n
  {
    if n == 0 {
      a, b := lo, hi;
    } else {
      var mid := 0.5 * (lo + hi);
      HalfFirst(hi - lo, n - 1);
      if f(mid) < price {
        a, b := BisectEndsBracket(f, price, mid, hi, n - 1);
      } else {
        a, b := BisectEndsBracket(f, price, lo, mid, n - 1);
      }
    }
  }

  /** Whatever the pricer, the result is the middle of a bracket of the 64-times-halved width; for a price
      strictly inside the first bracket, the pricer is below the price at its left end and not at its right. */
  lemma InversionBrackets(f: Pricer, price: real, tau: real) returns (a: real, b: real)
    requires Invert(f, price, tau).Some?
    ensures LOW <= a < b <= HIGH && b - a == 4.9999 / 18446744073709551616.0
    ensures Invert(f, price, tau).value == 0.5 * (a + b)
    ensures (a == LOW || f(a) < price) && (b == HIGH || f(b) >= price)
    ensures f(LOW) < price <= f(HIGH) ==> f(a) < price <= f(b)
  {
    hide Bisect, Halved;
    a, b := BisectEndsBracket(f, price, LOW, HIGH, ITERATIONS);
    FinalWidth();
    LastHalving(HIGH - LOW);
  }

  lemma LastHalving(width: real)
    ensures Halved(width, 65) == Halved(width, 64) / 2.0
  {
  }

  /** For an increasing pricer the crossing is the root, or the near end when the tolerance lets a price
      from outside the bracket through. */
  lemma CrossingOfIncreasing(f: Pricer, price: real, c: real)
    requires StrictlyIncreasing(f) && LOW <= c <= HIGH
    requires f(c) == price || (c == LOW && price < f(LOW)) || (c == HIGH && price > f(HIGH))
    ensures Crosses(f, price, c)
    ensures forall x | LOW <= x <= HIGH && f(x) == price :: x == c
  {
  }

  /** Round trip: a price computed from a volatility of the bracket inverts to that volatility. */
  lemma PricingThenInvertingRecoversSigma(f: Pricer, sigma: real, tau: real)
    requires StrictlyIncreasing(f) && LOW <= sigma <= HIGH && f(sigma) >= 0.0 && tau > 0.0
    ensures Invert(f, f(sigma), tau).Some?
    ensures var error := 4.9999 / 36893488147419103232.0;
      sigma - error <= Invert(f, f(sigma), tau).value <= sigma + error
  {
    hide Bisect;
    assert f(LOW) <= f(sigma) <= f(HIGH);
    CrossingOfIncreasing(f, f(sigma), sigma);
    InversionIsAccurate(f, f(sigma), tau, sigma);
  }

  lemma {:induction false} BisectStaysInside(f: Pricer, price: real, lo: real, hi: real, n: nat)
    requires lo <= hi
    ensures lo <= Bisect(f, price, lo, hi, n) <= hi
    decreases n
  {
    if n > 0 {
      var mid := 0.5 * (lo + hi);
      if f(mid) < price {
        BisectStaysInside(f, price, mid, hi, n - 1);
      } else {
        BisectStaysInside(f, price, lo, mid, n - 1);
      }
    }
  }

  /** A higher price never gets a lower volatility, whatever the pricer. */
  lemma {:induction false} BisectIsMonotone(f: Pricer, cheap: real, dear: real, lo: real, hi: real, n: nat)
    requires cheap <= dear && lo <= hi
    ensures Bisect(f, cheap, lo, hi, n) <= Bisect(f, dear, lo, hi, n)
    decreases n
  {
    if n > 0 {
      var mid := 0.5 * (lo + hi);
      if f(mid) < cheap {
        BisectIsMonotone(f, cheap, dear, mid, hi, n - 1);
      } else if f(mid) >= dear {
        BisectIsMonotone(f, cheap, dear, lo, mid, n - 1);
      } else {
        BisectStaysInside(f, cheap, lo, mid, n - 1);
        BisectStaysInside(f, dear, mid, hi, n - 1);
      }
    }
  }

  lemma InversionIsMonotone(f: Pricer, cheap: real, dear: real, tau: real)
    requires cheap <= dear && Invert(f, cheap, tau).Some? && Invert(f, dear, tau).Some?
    ensures LOW <= Invert(f, cheap, tau).value <= Invert(f, dear, tau).value <= HIGH
  {
    hide Bisect;
    BisectStaysInside(f, cheap, LOW, HIGH, ITERATIONS);
    BisectStaysInside(f, dear, LOW, HIGH, ITERATIONS);
    BisectIsMonotone(f, cheap, dear, LOW, HIGH, ITERATIONS);
  }
}
