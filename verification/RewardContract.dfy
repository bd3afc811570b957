/** The reward contract as it runs: stored state and holders updated in place. Its
    class invariant is the exact ledger of module `RewardRuns`; `dust` is what the
    divisions of all updates so far have left over. */
module RewardContracts {
  import opened Decimals
  import opened DecimalText
  import opened Tax
  import opened Rewards
  import opened RewardRuns

  /** The bank message of a claim: the reward before tax, and the coin sent. */
  datatype RewardSent = RewardSent(to: Addr, rewards: nat, coin: nat)

  class RewardContract {
    var state: State
    var holders: map<Addr, Holder>
    ghost var dust: nat

    function Stored(): Storage
      reads this
    {
      Storage(state, holders)
    }

    ghost predicate Valid()
      reads this
    {
      Exact(Stored(), dust)
    }

    constructor ()
      ensures Valid() && Stored() == INITIAL && dust == 0
    {
      state := State(0, 0, 0);
      holders := map[];
      dust := 0;
      new;
      assert Balances(INITIAL) == map[] && Credits(INITIAL) == map[];
    }

    /** Settle the holder, then raise the balance: nobody's reward changes. */
    method ExecuteIncreaseBalance(byToken: bool, address: Addr, amount: nat) returns (r: Result<(), Error>)
      requires Valid()
      modifies this
      ensures Valid() && dust == old(dust)
      ensures match Increase(old(Stored()), byToken, address, amount)
        case Err(e) => r == Err(e) && Stored() == old(Stored())
        case Ok(after) => r == Ok(()) && Stored() == after
      ensures r.Ok? ==> Transferred(old(Stored()), Stored(), address, amount)
    {
      hide CalculateRewards, Exact, Transferred;
      if !byToken {
        return Err(Unauthorized);
      }
      var holder := ReadHolder(Stored(), address);
      var rewards := CalculateRewards(state.globalIndex, holder.index, holder.balance);
      if rewards.None? {
        return Err(Narrowing);
      }
      var pending := Add(rewards.value, holder.pending);
      if pending.None? {
        return Err(Narrowing);
      }
      holder := holder.(index := state.globalIndex, pending := pending.value);
      if holder.balance + amount >= U128 || state.totalBalance + amount >= U128 {
        return Err(AddOverflow);
      }
      IncreaseKeepsBooks(Stored(), address, amount, dust);
      holder := holder.(balance := holder.balance + amount);
      state := state.(totalBalance := state.totalBalance + amount);
      holders := holders[address := holder];
      return Ok(());
    }

    static lemma IncreaseKeepsBooks(s: Storage, a: Addr, amount: nat, dust: nat)
      requires Exact(s, dust)
      ensures var r := Increase(s, true, a, amount);
        r.Ok? ==> Exact(r.value, dust) && Transferred(s, r.value, a, amount)
    {
      hide Transferred, Increase, Balances, Credits;
      if Increase(s, true, a, amount).Ok? {
        IncreaseExact(s, a, amount, dust);
        IncreaseTransfers(s, a, amount);
      }
    }

    /** Settle the holder, then lower the balance; refused exactly when it is too
        small, so the total never underflows. */
    method ExecuteDecreaseBalance(byToken: bool, address: Addr, amount: nat) returns (r: Result<(), Error>)
      requires Valid()
      modifies this
      ensures Valid() && dust == old(dust)
      ensures match Decrease(old(Stored()), byToken, address, amount)
        case Err(e) => r == Err(e) && Stored() == old(Stored())
        case Ok(after) => r == Ok(()) && Stored() == after
      ensures r.Ok? ==> Transferred(old(Stored()), Stored(), address, 0 - amount)
      ensures r != Err(TotalTooSmall)
    {
      hide CalculateRewards, Exact, Transferred;
      if !byToken {
        return Err(Unauthorized);
      }
      DecreaseKeepsBooks(Stored(), address, amount, dust);
      var holder := ReadHolder(Stored(), address);
      if holder.balance < amount {
        return Err(ExceedsBalance);
      }
      var rewards := CalculateRewards(state.globalIndex, holder.index, holder.balance);
      if rewards.None? {
        return Err(Narrowing);
      }
      var pending := Add(rewards.value, holder.pending);
      if pending.None? {
        return Err(Narrowing);
      }
      holder := holder.(index := state.globalIndex, pending := pending.value);
      holder := holder.(balance := holder.balance - amount);
      if state.totalBalance < amount {
        return Err(TotalTooSmall);
      }
      state := state.(totalBalance := state.totalBalance - amount);
      holders := holders[address := holder];
      return Ok(());
    }

    static lemma DecreaseKeepsBooks(s: Storage, a: Addr, amount: nat, dust: nat)
      requires Exact(s, dust)
      ensures var r := Decrease(s, true, a, amount);
        && r != Err(TotalTooSmall)
        && (r.Ok? ==> Exact(r.value, dust) && Transferred(s, r.value, a, 0 - amount))
    {
      hide Transferred, Decrease, Balances, Credits;
      SubtractionsNeverFail(s, a, amount, dust);
      if Decrease(s, true, a, amount).Ok? {
        DecreaseExact(s, a, amount, dust);
        DecreaseTransfers(s, a, amount);
      }
    }

    /** Pays the whole units of the credit, less tax, to the recipient or else to the
        sender; the fraction is kept through its text form. The pool always covers it. */
    method ExecuteClaimRewards(sender: Addr, recipient: Option<Addr>, taxRate: nat, taxCap: nat)
      returns (r: Result<RewardSent, Error>)
      requires Valid()
      modifies this
      ensures Valid() && dust == old(dust)
      ensures match Claim(old(Stored()), sender)
        case Err(e) => r == Err(e) && Stored() == old(Stored())
        case Ok(claimed) => r.Ok? && r.value.rewards == claimed.rewards && Stored() == claimed.storage
      ensures r.Ok? ==>
        && r.value.to == (if recipient.Some? then recipient.value else sender)
        && r.value.rewards == CreditOf(old(Stored()), sender) / ONE
        && r.value.coin == DeductTax(r.value.rewards, taxRate, taxCap)
        && CreditOf(Stored(), sender) == CreditOf(old(Stored()), sender) % ONE
        && state == old(state).(prevRewardBalance := old(state).prevRewardBalance - r.value.rewards)
      ensures r != Err(InsufficientRewards)
    {
      hide CalculateRewards, GetDecimals, Exact, Credit, DeductTax;
      ClaimKeepsBooks(Stored(), sender, dust);
      var to := if recipient.Some? then recipient.value else sender;
      var holder := ReadHolder(Stored(), sender);
      var rewardWithDecimals := CalculateRewards(state.globalIndex, holder.index, holder.balance);
      if rewardWithDecimals.None? {
        return Err(Narrowing);
      }
      var all := Add(rewardWithDecimals.value, holder.pending);
      if all.None? {
        return Err(Narrowing);
      }
      GetDecimalsIsRemainder(all.value);
      var decimals := GetDecimals(all.value);
      var rewards := Times(1, all.value);
      if rewards == 0 {
        return Err(NoRewards);
      }
      if state.prevRewardBalance < rewards {
        return Err(InsufficientRewards);
      }
      state := state.(prevRewardBalance := state.prevRewardBalance - rewards);
      holder := holder.(pending := decimals.value, index := state.globalIndex);
      holders := holders[sender := holder];
      return Ok(RewardSent(to, rewards, DeductTax(rewards, taxRate, taxCap)));
    }

    static lemma ClaimKeepsBooks(s: Storage, a: Addr, dust: nat)
      requires Exact(s, dust)
      ensures var r := Claim(s, a);
        && r != Err(InsufficientRewards)
        && (r.Ok? ==>
          && Exact(r.value.storage, dust)
          && r.value.rewards == CreditOf(s, a) / ONE
          && CreditOf(r.value.storage, a) == CreditOf(s, a) % ONE)
    {
      hide Credit, Accrued, Balances, Credits, Times;
      SubtractionsNeverFail(s, a, 0, dust);
      if Claim(s, a).Ok? {
        ClaimExact(s, a, dust);
      }
    }

    /** Everyone is credited in proportion; the division's remainder becomes dust. */
    method ExecuteUpdateGlobalIndex(byHub: bool, balance: nat) returns (r: Result<(), Error>)
      requires Valid()
      modifies this`state, this`dust
      ensures Valid()
      ensures match UpdateGlobalIndex(old(Stored()), byHub, balance)
        case Err(e) => r == Err(e) && Stored() == old(Stored()) && dust == old(dust)
        case Ok(after) => r == Ok(()) && Stored() == after
      ensures r.Ok? ==>
        var q := FromRatio(balance - old(state).prevRewardBalance, old(state).totalBalance);
        && (forall a :: CreditOf(Stored(), a) ==
             CreditOf(old(Stored()), a) + ReadHolder(old(Stored()), a).balance * q)
        && old(dust) <= dust < old(dust) + state.totalBalance
        && state.prevRewardBalance == balance
    {
      hide Exact, Credit, FromRatio, Remainder;
      if !byHub {
        return Err(Unauthorized);
      }
      if state.totalBalance == 0 {
        return Err(NothingBonded);
      }
      if balance < state.prevRewardBalance {
        return Err(BalanceShrank);
      }
      var claimedRewards := balance - state.prevRewardBalance;
      var perToken := Narrow(FromRatio(claimedRewards, state.totalBalance));
      if perToken.None? {
        return Err(Narrowing);
      }
      var index := Add(state.globalIndex, perToken.value);
      if index.None? {
        return Err(Narrowing);
      }
      UpdateExact(Stored(), balance, dust);
      dust := dust + Remainder(Stored(), balance);
      state := state.(prevRewardBalance := balance, globalIndex := index.value);
      assert forall a :: ReadHolder(Stored(), a) == ReadHolder(old(Stored()), a);
      return Ok(());
    }
  }
}
