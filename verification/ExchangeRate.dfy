/** The bAsset share price: `update_exchange_rate`, the nine-digit division used
    for minting, and what each hub operation does to the backing of the price. */
module ExchangeRate {
  import opened Decimals

  const NINE_DIGITS: nat := 1_000_000_000

  /** `State::update_exchange_rate`; `claims` is supply plus open requests. */
  function Rate(totalBond: nat, claims: nat): nat {
    if totalBond == 0 || claims == 0 then ONE else FromRatio(totalBond, claims)
  }

  /** `decimal_division`; None where the truncated divisor is zero and panics. */
  function DecimalDivision(a: nat, b: nat): Option<nat> {
    var divisor := Times(NINE_DIGITS, b);
    if divisor == 0 then None else Some(Times(NINE_DIGITS, FromRatio(a, divisor)))
  }

  /** The rate with everything beyond its ninth fractional digit cut off. */
  function NineDigits(rate: nat): nat {
    rate - rate % NINE_DIGITS
  }

  /** Every claim can be honoured at the stored rate, and no claim is left
      standing on an empty bond. */
  predicate Backed(rate: nat, claims: nat, totalBond: nat) {
    rate * claims <= totalBond * ONE && (totalBond == 0 ==> claims == 0)
  }

  // ------------------------------------------------------------ division

  /** The two truncations collapse into one division by the nine-digit rate. */
  lemma DecimalDivisionClosedForm(a: nat, b: nat)
    ensures DecimalDivision(a, b).Some? <==> b >= NINE_DIGITS
    ensures b >= NINE_DIGITS ==>
      NineDigits(b) > 0 && DecimalDivision(a, b).value == a * ONE / NineDigits(b)
  {
    var d := b / NINE_DIGITS;
    DivFloor(b, NINE_DIGITS);
    DivUnique(NINE_DIGITS * b, ONE, d);
    assert Times(NINE_DIGITS, b) == d;
    if d > 0 {
      assert NineDigits(b) == d * NINE_DIGITS;
      NestedFloors(a, d, NINE_DIGITS);
      assert ONE == NINE_DIGITS * NINE_DIGITS;
    }
  }

  lemma NestedFloors(a: nat, d: nat, k: nat)
    requires d > 0 && k > 0
    ensures d * k > 0 && k * k > 0
    ensures k * (a * (k * k) / d) / (k * k) == a * (k * k) / (d * k)
  {
    MulMono(1, d, k);
    MulMono(1, k, k);
    var x := a * (k * k);
    CancelFactor(x / d, k);
    DivDiv(x, d, k);
  }

  lemma CancelFactor(x: int, k: nat)
    requires k > 0
    ensures k * k > 0 && k * x / (k * k) == x / k
  {
    MulMono(1, k, k);
    DivFloor(x, k);
    var q := x / k;
    MulMono(q * k, x, k);
    MulMono(x + 1, q * k + k, k);
    DivUnique(k * x, k * k, q);
  }

  lemma DivDiv(x: int, d: nat, k: nat)
    requires d > 0 && k > 0
    ensures d * k > 0 && x / d / k == x / (d * k)
  {
    MulMono(1, d, k);
    var inner := x / d;
    var q := inner / k;
    DivFloor(x, d);
    DivFloor(inner, k);
    MulMono(q * k, inner, d);
    MulMono(inner + 1, q * k + k, d);
    assert q * k * d == q * (d * k) && (q * k + k) * d == q * (d * k) + d * k;
    DivUnique(x, d * k, q);
  }

  /** At least the exact quotient, at most the quotient by a rate 10^-9 smaller,
      and exact when the rate has nine fractional digits. */
  lemma DecimalDivisionBounds(a: nat, b: nat)
    requires b >= NINE_DIGITS
    ensures DecimalDivision(a, b).Some?
    ensures var q := DecimalDivision(a, b).value;
      && a * ONE / b <= q
      && q * NineDigits(b) <= a * ONE
      && q * (b - NINE_DIGITS) <= a * ONE
      && (b % NINE_DIGITS == 0 ==> q == a * ONE / b)
  {
    DecimalDivisionClosedForm(a, b);
    var q, t := DecimalDivision(a, b).value, NineDigits(b);
    DivFloor(a * ONE, t);
    DivNonNeg(a * ONE, b);
    DivFloor(a * ONE, b);
    MulMono(t, b, a * ONE / b);
    DivAtLeast(a * ONE, t, a * ONE / b);
    MulMono(b - NINE_DIGITS, t, q);
  }

  // ------------------------------------------------------------- backing

  /** A recomputed rate is backed, unless the bond was wiped out under claims. */
  lemma RecomputedRateIsBacked(totalBond: nat, claims: nat)
    ensures Backed(Rate(totalBond, claims), claims, totalBond) <==> totalBond > 0 || claims == 0
  {
    if totalBond > 0 && claims > 0 {
      FromRatioFloor(totalBond, claims);
    }
  }

  lemma BurnKeepsBacking(rate: nat, claims: nat, totalBond: nat, burnt: nat)
    requires Backed(rate, claims, totalBond) && burnt <= claims
    ensures Backed(rate, claims - burnt, totalBond)
  {
    MulMono(claims - burnt, claims, rate);
  }

  /** Closing a batch undelegates no more than is bonded and, without touching
      the rate, leaves the remaining claims backed. */
  lemma CloseKeepsBacking(rate: nat, claims: nat, totalBond: nat, requested: nat)
    requires Backed(rate, claims, totalBond) && requested <= claims
    ensures Times(requested, rate) <= totalBond
    ensures Backed(rate, claims - requested, totalBond - Times(requested, rate))
  {
    var u := Times(requested, rate);
    TimesFloor(requested, rate);
    MulMono(requested, claims, rate);
    assert rate * claims == rate * requested + rate * (claims - requested);
    assert rate * requested == requested * rate;
    MulCancelLe(u, totalBond, ONE);
    assert (totalBond - u) * ONE == totalBond * ONE - u * ONE;
    if u == totalBond && claims > requested {
      if rate > 0 {
        MulMono(1, claims - requested, rate);
      }
    }
  }

  /** Minting by `decimal_division` never dilutes below the nine-digit rate. */
  lemma BondImpact(rate: nat, claims: nat, totalBond: nat, payment: nat, minted: nat)
    requires Backed(rate, claims, totalBond)
    requires DecimalDivision(payment, rate).Some? && minted <= DecimalDivision(payment, rate).value
    requires payment > 0 && claims + minted > 0
    ensures var after := Rate(totalBond + payment, claims + minted);
      && NineDigits(rate) <= after
      && rate < after + NINE_DIGITS
      && (rate % NINE_DIGITS == 0 ==> rate <= after)
  {
    DecimalDivisionClosedForm(payment, rate);
    DecimalDivisionBounds(payment, rate);
    var t := NineDigits(rate);
    MulMono(t, rate, claims);
    MulMono(minted, DecimalDivision(payment, rate).value, t);
    assert t * (claims + minted) == t * claims + t * minted;
    assert (totalBond + payment) * ONE == totalBond * ONE + payment * ONE;
    DivAtLeast((totalBond + payment) * ONE, claims + minted, t);
  }

  /** Removing claims (the peg fee) from a backed rate never lowers the price. */
  lemma FewerClaimsRaiseRate(rate: nat, claims: nat, totalBond: nat, fee: nat)
    requires Backed(rate, claims, totalBond) && fee < claims
    ensures rate <= Rate(totalBond, claims - fee)
  {
    MulMono(claims - fee, claims, rate);
    DivAtLeast(totalBond * ONE, claims - fee, rate);
  }

  /** A price over at least as many claims as bonded coins is at most one. */
  lemma RateAtMostOne(totalBond: nat, claims: nat)
    requires totalBond <= claims
    ensures Rate(totalBond, claims) <= ONE
  {
    if totalBond > 0 {
      MulMono(totalBond, claims, ONE);
      DivAtMost(totalBond * ONE, claims, ONE);
    }
  }
}
