/** The stability tax taken from a reward payout (`compute_tax`, `deduct_tax`). */
module Tax {
  import opened Decimals

  /** `rate` and `cap` are the chain's tax rate and tax cap for the denomination. */
  function ComputeTax(amount: nat, rate: nat, cap: nat): (tax: nat)
    ensures tax <= amount && tax <= cap
  {
    var net := amount * ONE / (Times(ONE, rate) + ONE);
    assert 0 <= net <= amount by {
      NetAtMost(amount, Times(ONE, rate) + ONE);
    }
    Min(amount - net, cap)
  }

  function DeductTax(amount: nat, rate: nat, cap: nat): (coin: nat)
    ensures coin <= amount
  {
    amount - ComputeTax(amount, rate, cap)
  }

  /** What the chain itself takes when `coin` is sent. */
  function ChainTax(coin: nat, rate: nat, cap: nat): nat {
    Min(Times(coin, rate), cap)
  }

  lemma NetAtMost(amount: nat, divisor: nat)
    requires divisor >= ONE
    ensures 0 <= amount * ONE / divisor <= amount
  {
    DivNonNeg(amount * ONE, divisor);
    MulMono(ONE, divisor, amount);
    DivAtMost(amount * ONE, divisor, amount);
  }

  /** The coin sent is as large as the tax allows: the largest whose tax at `rate` fits
      beside it in `amount`, unless that would be taxed by more than the cap; then
      exactly the cap is held back. */
  lemma CoinIsLargest(amount: nat, rate: nat, cap: nat)
    ensures var coin := DeductTax(amount, rate, cap);
      && (amount - coin < cap ==> IsFloor(coin, amount * ONE, ONE + rate))
      && (amount - coin >= cap ==> coin == amount - cap && amount * ONE < (coin + 1) * (ONE + rate))
  {
    var coin, net := DeductTax(amount, rate, cap), amount * ONE / (ONE + rate);
    RateAsFraction(rate);
    DivFloor(amount * ONE, ONE + rate);
    if amount - coin >= cap {
      MulMono(net + 1, coin + 1, ONE + rate);
    }
  }

  lemma RateAsFraction(rate: nat)
    ensures Times(ONE, rate) == rate
  {
    DivUnique(ONE * rate, ONE, rate);
  }

  /** The coin sent and the tax on it fit in the gross reward, and fall short of it by
      less than two coins and the tax on one; by nothing where the tax exceeds the cap. */
  lemma TaxFits(amount: nat, rate: nat, cap: nat)
    ensures var coin := DeductTax(amount, rate, cap); var out := coin + ChainTax(coin, rate, cap);
      && out <= amount
      && (amount - out) * ONE < 2 * ONE + rate
      && (coin == amount - cap && amount * ONE < coin * (ONE + rate) ==> out == amount)
  {
    hide Times, DeductTax;
    var coin := DeductTax(amount, rate, cap);
    CoinIsLargest(amount, rate, cap);
    TimesFloor(coin, rate);
    var tax := Times(coin, rate);
    assert coin * (ONE + rate) == coin * ONE + coin * rate;
  }
}
