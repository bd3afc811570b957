/** When each call of the reward contract succeeds, with the holder's credit and the
    widths it has to fit. What a successful call changes is in `Transferred`,
    `ClaimExact` and `UpdateExact` of module `RewardRuns`. */
module RewardOutcomes {
  import opened Decimals
  import opened Rewards
  import opened RewardRuns

  /** The holder can be settled: balance, index difference and credit fit in 128 bits. */
  predicate Fits(s: Storage, a: Addr) {
    var h := ReadHolder(s, a);
    && h.balance * ONE < U128
    && s.state.globalIndex - h.index < U128
    && h.pending + h.balance * (s.state.globalIndex - h.index) < U128
  }

  lemma FitsExactly(s: Storage, a: Addr)
    requires IndexesBehind(s)
    ensures Accrued(s.state, ReadHolder(s, a)).Some? <==> Fits(s, a)
    ensures CreditOf(s, a) == ReadHolder(s, a).pending +
      ReadHolder(s, a).balance * (s.state.globalIndex - ReadHolder(s, a).index)
  {
    hide Accrued;
    HolderBehind(s, a);
    AccruedIsCredit(s.state, ReadHolder(s, a));
  }

  /** The token can raise a balance exactly if the holder can be settled and the new
      balance and total fit. */
  lemma IncreaseSucceedsIff(s: Storage, byToken: bool, a: Addr, amount: nat)
    requires IndexesBehind(s)
    ensures Increase(s, byToken, a, amount).Ok? <==>
      && byToken && Fits(s, a)
      && ReadHolder(s, a).balance + amount < U128 && s.state.totalBalance + amount < U128
  {
    hide Accrued, Fits;
    FitsExactly(s, a);
  }

  /** The token can lower a balance exactly if the holder has that much and can be
      settled. */
  lemma DecreaseSucceedsIff(s: Storage, byToken: bool, a: Addr, amount: nat, dust: nat)
    requires Exact(s, dust)
    ensures Decrease(s, byToken, a, amount).Ok? <==> byToken && Fits(s, a) && amount <= ReadHolder(s, a).balance
  {
    hide Accrued, Fits, Balances, Credits, Credit;
    FitsExactly(s, a);
    SubtractionsNeverFail(s, a, amount, dust);
  }

  /** A claim succeeds exactly if the holder can be settled and has a whole unit coming. */
  lemma ClaimSucceedsIff(s: Storage, a: Addr, dust: nat)
    requires Exact(s, dust)
    ensures Claim(s, a).Ok? <==> Fits(s, a) && ONE <= CreditOf(s, a)
  {
    hide Accrued, Fits, Balances, Credits, Credit, Times;
    FitsExactly(s, a);
    HolderBehind(s, a);
    AccruedIsCredit(s.state, ReadHolder(s, a));
    WholeUnits(CreditOf(s, a));
    SubtractionsNeverFail(s, a, 0, dust);
  }

  /** The hub can update the index exactly if somebody holds tokens, the balance has not
      shrunk, and the coins per token and the new index fit. */
  lemma UpdateSucceedsIff(s: Storage, byHub: bool, balance: nat)
    ensures UpdateGlobalIndex(s, byHub, balance).Ok? <==>
      && byHub && s.state.totalBalance > 0 && s.state.prevRewardBalance <= balance
      && (balance - s.state.prevRewardBalance) * ONE / s.state.totalBalance < U128
      && s.state.globalIndex + (balance - s.state.prevRewardBalance) * ONE / s.state.totalBalance < U128
    ensures UpdateGlobalIndex(s, byHub, balance).Ok? ==>
      var after := UpdateGlobalIndex(s, byHub, balance).value;
      && after == s.(state := s.state.(globalIndex := after.state.globalIndex, prevRewardBalance := balance))
      && IsFloor(after.state.globalIndex - s.state.globalIndex,
           (balance - s.state.prevRewardBalance) * ONE, s.state.totalBalance)
  {
    if s.state.totalBalance > 0 && s.state.prevRewardBalance <= balance {
      FromRatioFloor(balance - s.state.prevRewardBalance, s.state.totalBalance);
    }
  }
}
