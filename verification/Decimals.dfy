/** Fixed-point arithmetic shared by every contract: a `Decimal` is a natural
    number of atoms, `ONE` atoms making 1.0, and every operation rounds down. */
module Decimals {

  const ONE: nat := 1_000_000_000_000_000_000

  datatype Result<+T, +E> = Ok(value: T) | Err(error: E)

  datatype Option<+T> = None | Some(value: T)

  /** `Decimal::from_ratio`; a zero denominator panics in the contracts. */
  function FromRatio(numerator: nat, denominator: nat): nat
    requires denominator > 0
  {
    numerator * ONE / denominator
  }

  /** `Uint128 * Decimal` and `Decimal * Uint128`. */
  function Times(amount: nat, rate: nat): nat {
    amount * rate / ONE
  }

  /** The magnitude of a difference and whether the difference is negative. */
  datatype SignedInt = SignedInt(abs: nat, negative: bool) {
    function Value(): int {
      var magnitude: int := abs;
      if negative then -magnitude else magnitude
    }
  }

  /** `SignedInt::from_subtraction`: zero is never marked negative. */
  function FromSubtraction(minuend: nat, subtrahend: nat): (r: SignedInt)
    ensures r.Value() == minuend - subtrahend
    ensures r.negative <==> minuend < subtrahend
  {
    if minuend < subtrahend then SignedInt(subtrahend - minuend, true)
    else SignedInt(minuend - subtrahend, false)
  }

  function Min(a: nat, b: nat): nat {
    if a <= b then a else b
  }

  // ---------------------------------------------------------------- floors

  /** `q` is the whole part of `a` / `b`. */
  predicate IsFloor(q: nat, a: nat, b: nat) {
    q * b <= a < q * b + b
  }

  lemma DivFloor(a: int, b: int)
    requires b > 0
    ensures a / b * b <= a < a / b * b + b
  {
  }

  /** The quotient is the only integer between the two bounds. */
  lemma DivUnique(a: int, b: int, q: int)
    requires b > 0 && q * b <= a < q * b + b
    ensures a / b == q
  {
    DivFloor(a, b);
    var p := a / b;
    if p < q {
      MulMono(p + 1, q, b);
    } else if q < p {
      MulMono(q + 1, p, b);
    }
  }

  lemma DivAtLeast(a: int, b: int, q: int)
    requires b > 0 && q * b <= a
    ensures q <= a / b
  {
    DivFloor(a, b);
    if a / b < q {
      MulMono(a / b + 1, q, b);
    }
  }

  lemma DivAtMost(a: int, b: int, q: int)
    requires b > 0 && a < q * b + b
    ensures a / b <= q
  {
    DivFloor(a, b);
    if q < a / b {
      MulMono(q + 1, a / b, b);
    }
  }

  lemma MulMono(a: int, b: int, c: int)
    requires a <= b && c >= 0
    ensures a * c <= b * c && c * a <= c * b
  {
  }

  lemma MulCancelLe(a: int, b: int, c: int)
    requires c > 0 && a * c <= b * c
    ensures a <= b
  {
    if b < a {
      MulMono(b + 1, a, c);
    }
  }

  lemma DivNonNeg(a: nat, b: nat)
    requires b > 0
    ensures a / b >= 0
  {
    DivAtLeast(a, b, 0);
  }

  lemma DivMono(a: int, b: int, d: int)
    requires a <= b && d > 0
    ensures a / d <= b / d
  {
    DivFloor(a, d);
    DivAtLeast(b, d, a / d);
  }

  lemma FromRatioFloor(numerator: nat, denominator: nat)
    requires denominator > 0
    ensures var r := FromRatio(numerator, denominator);
      r * denominator <= numerator * ONE < r * denominator + denominator
  {
    DivFloor(numerator * ONE, denominator);
  }

  lemma TimesFloor(amount: nat, rate: nat)
    ensures var r := Times(amount, rate);
      r * ONE <= amount * rate < r * ONE + ONE
  {
    DivFloor(amount * rate, ONE);
  }

  /** Splitting an amount can only lose value to rounding. */
  lemma TimesSuperadditive(a: nat, b: nat, rate: nat)
    ensures Times(a, rate) + Times(b, rate) <= Times(a + b, rate)
  {
    TimesFloor(a, rate);
    TimesFloor(b, rate);
    assert (a + b) * rate == a * rate + b * rate;
    DivAtLeast((a + b) * rate, ONE, Times(a, rate) + Times(b, rate));
  }

  /** Converting to a rate and back never gives more than was put in. */
  lemma RatioRoundTrip(total: nat, amount: nat)
    requires amount > 0
    ensures Times(amount, FromRatio(total, amount)) <= total
  {
    FromRatioFloor(total, amount);
    var r := FromRatio(total, amount);
    assert amount * r == r * amount;
    DivAtMost(amount * r, ONE, total);
  }
}
