/** The hub as the contract runs it: stored items updated in place, loops over the
    histories, the wait list and the delegations. Every handler is proved to
    compute the matching function of module `Hub`; a failed handler restores the
    data, as the chain does. */
module HubContracts {
  import opened Decimals
  import opened Sums
  import opened HubTypes
  import opened Undelegations
  import opened ExchangeRate
  import opened Apportionment
  import opened WithdrawRate
  import Hub
  import HubInvariant

  class HubContract {
    var params: Params
    var whitelist: set<string>
    var state: State
    var batch: CurrentBatch
    var histories: Histories
    var waits: Waits

    function Stored(): Storage
      reads this
    {
      Storage(params, whitelist, state, batch, histories, waits)
    }

    /** Enough for the loops over the histories to end. */
    ghost predicate Valid()
      reads this
    {
      && state.lastProcessedBatch < batch.id
      && forall b :: b in histories ==> b < batch.id
    }

    constructor (params: Params, validator: string, payment: nat, now: nat)
      ensures Valid() && Stored() == Hub.InitialStorage(params, validator, payment, now)
    {
      this.params := params;
      whitelist := {validator};
      state := State(ONE, payment, 0, 0, now, 0);
      batch := CurrentBatch(1, 0);
      histories := map[];
      waits := map[];
    }

    /** `instantiate`: without a positive deposit there is no contract. */
    static method Instantiate(params: Params, validator: string, funds: seq<Coin>, now: nat)
      returns (r: Result<HubContract, Error>)
      ensures match Hub.FindPayment(funds, params.coinDenom)
        case None => r == Err(NoPayment)
        case Some(payment) =>
          && r.Ok? && fresh(r.value) && r.value.Valid()
          && r.value.Stored() == Hub.InitialStorage(params, validator, payment, now)
          && r.value.params == params && r.value.whitelist == {validator}
          && r.value.state.exchangeRate == ONE && r.value.state.totalBondAmount == payment
          && r.value.state.lastUnbondedTime == now && r.value.batch.id == 1
          && r.value.batch.requestedWithFee == r.value.state.lastProcessedBatch == 0
          && r.value.state.prevHubBalance == r.value.state.actualUnbondedAmount == 0
          && r.value.histories == map[] && r.value.waits == map[]
    {
      var found := FindPayment(funds, params.coinDenom);
      if found.None? {
        return Err(NoPayment);
      }
      var hub := new HubContract(params, validator, found.value, now);
      return Ok(hub);
    }

    method Restore(s: Storage)
      modifies this
      ensures Stored() == s
    {
      params, whitelist, state := s.params, s.whitelist, s.state;
      batch, histories, waits := s.batch, s.histories, s.waits;
    }

    method UpdateExchangeRate(totalIssued: nat, requestedWithFee: nat)
      modifies this`state
      ensures state == old(state).(exchangeRate := Rate(old(state).totalBondAmount, totalIssued + requestedWithFee))
      ensures var claims, bond := totalIssued + requestedWithFee, state.totalBondAmount;
        && (Backed(state.exchangeRate, claims, bond) <==> bond > 0 || claims == 0)
        && (bond > 0 && claims > 0 ==>
          state.exchangeRate * claims <= bond * ONE < state.exchangeRate * claims + claims)
    {
      RecomputedRateIsBacked(state.totalBondAmount, totalIssued + requestedWithFee);
      if state.totalBondAmount > 0 && totalIssued + requestedWithFee > 0 {
        FromRatioFloor(state.totalBondAmount, totalIssued + requestedWithFee);
      }
      var actualSupply := totalIssued + requestedWithFee;
      if state.totalBondAmount == 0 || actualSupply == 0 {
        state := state.(exchangeRate := ONE);
      } else {
        state := state.(exchangeRate := FromRatio(state.totalBondAmount, actualSupply));
      }
    }

    method Slashing(env: Env)
      modifies this`state
      ensures Stored() == Hub.Slash(old(Stored()), env)
      ensures old(Valid()) ==> Valid()
    {
      if |env.delegations| == 0 {
        return;
      }
      var actualTotalBonded := 0;
      for i := 0 to |env.delegations|
        invariant actualTotalBonded == Hub.BondedIn(env.delegations[..i], params.coinDenom)
      {
        assert env.delegations[..i + 1][..i] == env.delegations[..i];
        if env.delegations[i].denom == params.coinDenom {
          actualTotalBonded := actualTotalBonded + env.delegations[i].amount;
        }
      }
      assert env.delegations[..|env.delegations|] == env.delegations;
      if state.totalBondAmount > actualTotalBonded {
        state := state.(totalBondAmount := actualTotalBonded);
        UpdateExchangeRate(env.supply, batch.requestedWithFee);
      }
    }

    static method FindPayment(funds: seq<Coin>, denom: string) returns (payment: Option<nat>)
      ensures payment == Hub.FindPayment(funds, denom)
    {
      var i := 0;
      while i < |funds|
        invariant 0 <= i <= |funds|
        invariant Hub.FindPayment(funds, denom) == Hub.FindPayment(funds[i..], denom)
      {
        if funds[i].denom == denom && funds[i].amount > 0 {
          return Some(funds[i].amount);
        }
        assert funds[i..][1..] == funds[i + 1..];
        i := i + 1;
      }
      return None;
    }

    /** Returns the minted amount; the payment is delegated by a message. */
    method ExecuteBond(env: Env, validator: string, funds: seq<Coin>) returns (r: Result<nat, Error>)
      requires Valid()
      modifies this
      ensures Valid()
      ensures match Hub.Bond(old(Stored()), env, validator, funds)
        case Err(e) => r == Err(e) && Stored() == old(Stored())
        case Ok(bonded) => r == Ok(bonded.minted) && Stored() == bonded.storage
    {
      hide Hub.Slash, Hub.LessPegFee, Hub.FindPayment, DecimalDivision, Rate;
      if validator !in whitelist {
        return Err(NotWhitelisted);
      }
      if |funds| > 1 {
        return Err(MoreThanOneCoin);
      }
      var found := FindPayment(funds, params.coinDenom);
      if found.None? {
        return Err(NoPayment);
      }
      var payment := found.value;
      var checkpoint := Stored();
      Slashing(env);
      var totalSupply := env.supply;
      var divided := DecimalDivision(payment, state.exchangeRate);
      if divided.None? {
        Restore(checkpoint);
        return Err(RateTooSmall);
      }
      var mintAmount := divided.value;
      var claims, bonded := totalSupply + mintAmount + batch.requestedWithFee, state.totalBondAmount + payment;
      var less := LessPegFee(mintAmount, claims, bonded);
      if less.Err? {
        Restore(checkpoint);
        return Err(less.error);
      }
      var mintAmountWithFee := less.value;
      totalSupply := totalSupply + mintAmountWithFee;
      state := state.(totalBondAmount := state.totalBondAmount + payment);
      UpdateExchangeRate(totalSupply, batch.requestedWithFee);
      return Ok(mintAmountWithFee);
    }

    /** Returns the amount booked for the user and the undelegations to send. */
    method ExecuteUnbond(env: Env, user: Addr, amount: nat, rng: nat -> nat)
      returns (r: Result<(nat, seq<Undelegate>), Error>)
      requires Valid()
      modifies this
      ensures Valid()
      ensures match Hub.Unbond(old(Stored()), env, user, amount, rng)
        case Err(e) => r == Err(e) && Stored() == old(Stored())
        case Ok(done) => r == Ok((done.amountWithFee, done.undelegations)) && Stored() == done.storage
    {
      hide Hub.Slash, Hub.LessPegFee, Hub.CloseIfDue, Rate;
      var checkpoint := Stored();
      Slashing(env);
      var less := LessPegFee(amount, env.supply + batch.requestedWithFee, state.totalBondAmount);
      if less.Err? {
        Restore(checkpoint);
        return Err(less.error);
      }
      var amountWithFee := less.value;
      batch := batch.(requestedWithFee := batch.requestedWithFee + amountWithFee);
      StoreUnbondWaitList(batch.id, user, amountWithFee);
      if env.supply < amount {
        Restore(checkpoint);
        return Err(ExceedsSupply);
      }
      UpdateExchangeRate(env.supply - amount, batch.requestedWithFee);
      var closed := CloseIfDue(env, rng, amountWithFee);
      if closed.Err? {
        Restore(checkpoint);
        return Err(closed.error);
      }
      return closed;
    }

    /** The part of `execute_unbond` behind the epoch check; on Err the caller restores. */
    method CloseIfDue(env: Env, rng: nat -> nat, net: nat) returns (r: Result<(nat, seq<Undelegate>), Error>)
      requires Valid()
      modifies this`state, this`batch, this`histories
      ensures match Hub.CloseIfDue(old(Stored()), env, net, rng)
        case Err(e) => r == Err(e)
        case Ok(done) => r == Ok((done.amountWithFee, done.undelegations)) && Stored() == done.storage
      ensures r.Ok? ==> Valid()
    {
      if env.now < state.lastUnbondedTime {
        return Err(Underflow);
      }
      if env.now - state.lastUnbondedTime <= params.epochPeriod {
        return Ok((net, []));
      }
      var undelegationAmount := Times(batch.requestedWithFee, state.exchangeRate);
      if undelegationAmount == 1 {
        return Err(OneUnitUndelegation);
      }
      var picked := PickValidator(env.delegations, undelegationAmount, rng);
      if picked.None? {
        return Err(NotEnoughDelegated);
      }
      if state.totalBondAmount < undelegationAmount {
        return Err(ExceedsBond);
      }
      state := state.(totalBondAmount := state.totalBondAmount - undelegationAmount);
      var history := UnbondHistory(
        batch.id, env.now, batch.requestedWithFee, state.exchangeRate, state.exchangeRate, false);
      histories := histories[batch.id := history];
      batch := CurrentBatch(batch.id + 1, 0);
      state := state.(lastUnbondedTime := env.now);
      return Ok((net, picked.value));
    }

    method LessPegFee(amount: nat, claims: nat, bonded: nat) returns (r: Result<nat, Error>)
      ensures r == Hub.LessPegFee(Stored(), amount, claims, bonded)
    {
      if state.exchangeRate < params.erThreshold {
        var maxPegFee := Times(amount, params.pegRecoveryFee);
        if claims < bonded {
          return Err(Underflow);
        }
        var requiredPegFee := claims - bonded;
        var pegFee := Min(maxPegFee, requiredPegFee);
        if amount < pegFee {
          return Err(Underflow);
        }
        return Ok(amount - pegFee);
      }
      return Ok(amount);
    }

    method StoreUnbondWaitList(batchId: nat, user: Addr, amount: nat)
      modifies this`waits
      ensures waits == Hub.AddWait(old(waits), user, batchId, amount)
      ensures forall b :: BatchTotal(waits, b) == old(BatchTotal(waits, b)) + (if b == batchId then amount else 0)
      ensures forall k :: k in old(waits) && k != WaitKey(user, batchId) ==> k in waits && waits[k] == old(waits)[k]
    {
      forall b: nat
        ensures BatchTotal(Hub.AddWait(waits, user, batchId, amount), b) ==
          BatchTotal(waits, b) + (if b == batchId then amount else 0)
      {
        HubInvariant.AddWaitTotals(waits, user, batchId, amount, b);
      }
      var key := WaitKey(user, batchId);
      var askedAlready := if key in waits then waits[key] else 0;
      waits := waits[key := askedAlready + amount];
    }

    /** The first loop: the ripe batches and the coins expected for them. */
    static method CountRipe(histories: Histories, first: nat, bound: nat, time: nat)
      returns (total: nat, batchCount: nat)
      requires first <= bound && forall b :: b in histories ==> b < bound
      ensures var end := RipeEnd(histories, first, time, bound);
        batchCount == end - first && total == SumSeq(ExpectedFrom(histories, first, end))
    {
      hide Times, Expected, SumSeq;
      var i := first;
      total, batchCount := 0, 0;
      NothingExpected();
      while i in histories && histories[i].time <= time && !histories[i].released
        invariant first <= i <= bound
        invariant forall b :: first <= b < i ==> b in histories
        invariant RipeEnd(histories, first, time, bound) == RipeEnd(histories, i, time, bound)
        invariant total == SumSeq(ExpectedFrom(histories, first, i))
        invariant batchCount == i - first
        decreases bound - i
      {
        ExpectOneMore(histories, first, i);
        total := total + Times(histories[i].amount, histories[i].withdrawRate);
        batchCount := batchCount + 1;
        i := i + 1;
      }
    }

    static lemma NothingExpected()
      ensures SumSeq([]) == 0
    {
    }

    static lemma ExpectOneMore(h: Histories, first: nat, i: nat)
      requires first <= i && forall b :: first <= b <= i ==> b in h
      ensures SumSeq(ExpectedFrom(h, first, i + 1)) ==
        SumSeq(ExpectedFrom(h, first, i)) + Times(h[i].amount, h[i].withdrawRate)
    {
      hide Times;
      SumSeqAppend(ExpectedFrom(h, first, i), Expected(h[i]));
    }

    /** The second loop: store the new rate of every ripe batch. */
    static method ReleaseRipe(before: Histories, first: nat, bound: nat, time: nat, total: nat, arrived: nat)
      returns (released: Option<Histories>, lastProcessed: nat)
      requires 0 < first <= bound && forall b :: b in before ==> b < bound
      ensures var end := RipeEnd(before, first, time, bound);
        && (released.Some? <==> RangeReleasable(before, first, end, total, arrived))
        && (released.Some? ==>
          released.value == ReleaseRange(before, first, end, total, arrived) && lastProcessed == end - 1)
    {
      hide Times, Actual, CanRelease, RipeEnd;
      var slashed := FromSubtraction(total, arrived);
      var histories := before;
      var next := first;
      lastProcessed := first - 1;
      while next in histories && histories[next].time <= time && !histories[next].released
        invariant first <= next <= RipeEnd(before, first, time, bound)
        invariant RangeReleasable(before, first, next, total, arrived)
        invariant histories == ReleaseRange(before, first, next, total, arrived)
        invariant lastProcessed == next - 1
        decreases bound - next
      {
        ReachesOnlyRipe(before, first, bound, time, next, total, arrived);
        var history := histories[next];
        var actual := ActualOfBatch(history, total, arrived, slashed);
        if actual.None? || history.amount == 0 {
          return None, lastProcessed;
        }
        var rate := FromRatio(actual.value, history.amount);
        var historyForI := history.(withdrawRate := rate, released := true);
        histories := histories[next := historyForI];
        ReleaseRangeStep(before, first, next, total, arrived);
        lastProcessed := next;
        next := next + 1;
      }
      StopsAtEnd(before, first, bound, time, next, total, arrived);
      return Some(histories), lastProcessed;
    }

    /** On Err the stored data is unchanged; so is everything but these two items. */
    method ProcessWithdrawRate(time: nat, hubBalance: nat) returns (r: Result<(), Error>)
      requires Valid()
      modifies this`state, this`histories
      ensures match Process(old(Stored()), time, hubBalance)
        case Err(e) => r == Err(e) && Stored() == old(Stored())
        case Ok(after) => r == Ok(()) && Stored() == after
      ensures Valid()
    {
      hide Process, RipeEnd, ExpectedFrom, SumSeq, RangeReleasable, ReleaseRange;
      ghost var before := Stored();
      var balanceChange := FromSubtraction(hubBalance, state.prevHubBalance);
      var arrived := state.actualUnbondedAmount + balanceChange.abs;
      var first := state.lastProcessedBatch + 1;
      var total, batchCount := CountRipe(histories, first, batch.id, time);
      if batchCount == 0 {
        state := state.(actualUnbondedAmount := 0);
        NothingRipe(before, time, hubBalance);
        return Ok(());
      }
      var released, lastProcessed := ReleaseRipe(histories, first, batch.id, time, total, arrived);
      SomethingRipe(before, time, hubBalance, total, released, lastProcessed);
      if released.None? {
        return Err(ReleaseFailed);
      }
      histories := released.value;
      state := state.(lastProcessedBatch := lastProcessed, actualUnbondedAmount := 0);
      return Ok(());
    }

    static lemma NothingRipe(s: Storage, time: nat, bank: nat)
      requires RoundEnd(s, time) == RoundStart(s)
      ensures Process(s, time, bank) == Ok(s.(state := s.state.(actualUnbondedAmount := 0)))
    {
    }

    static lemma SomethingRipe(s: Storage, time: nat, bank: nat, total: nat, released: Option<Histories>, last: nat)
      requires RoundEnd(s, time) > RoundStart(s) && total == SumSeq(RoundExpected(s, time))
      requires forall b :: b in s.histories ==> b < s.batch.id
      requires RoundStart(s) <= s.batch.id
      requires var end := RoundEnd(s, time);
        && (released.Some? <==> RangeReleasable(s.histories, RoundStart(s), end, total, Arrived(s, bank)))
        && (released.Some? ==>
          && released.value == ReleaseRange(s.histories, RoundStart(s), end, total, Arrived(s, bank))
          && last == end - 1)
      ensures released.None? ==> Process(s, time, bank) == Err(ReleaseFailed)
      ensures released.Some? ==>
        && Process(s, time, bank) ==
           Ok(s.(histories := released.value,
                 state := s.state.(lastProcessedBatch := last, actualUnbondedAmount := 0)))
        && last < s.batch.id
        && forall b :: b in released.value ==> b < s.batch.id
    {
    }

    /** The body of the second loop; None where it fails. */
    static method ActualOfBatch(history: UnbondHistory, total: nat, arrived: nat, slashed: SignedInt)
      returns (actual: Option<nat>)
      requires slashed == FromSubtraction(total, arrived)
      ensures actual.Some? <==> CanRelease(Expected(history), total, arrived)
      ensures actual.Some? ==> actual.value == Actual(Expected(history), total, arrived)
    {
      var unbondedAmount := Times(history.amount, history.withdrawRate);
      if total == 0 {
        return None;
      }
      var weight := FromRatio(unbondedAmount, total);
      var slashedAmountOfBatch := Times(slashed.abs, weight);
      if slashed.negative {
        if slashedAmountOfBatch < 1 {
          return None;
        }
        slashedAmountOfBatch := slashedAmountOfBatch - 1;
        return Some(unbondedAmount + slashedAmountOfBatch);
      } else {
        if slashed.abs != 0 {
          slashedAmountOfBatch := slashedAmountOfBatch + 1;
        }
        return Some(FromSubtraction(unbondedAmount, slashedAmountOfBatch).abs);
      }
    }

    static lemma ReachesOnlyRipe(h: Histories, first: nat, bound: nat, time: nat, i: nat, total: nat, arrived: nat)
      requires forall b :: b in h ==> b < bound
      requires first <= i <= RipeEnd(h, first, time, bound)
      requires RangeReleasable(h, first, i, total, arrived)
      requires i in h && h[i].time <= time && !h[i].released
      ensures i < RipeEnd(h, first, time, bound)
      ensures ReleaseRange(h, first, i, total, arrived)[i] == h[i]
    {
    }

    static lemma StopsAtEnd(h: Histories, first: nat, bound: nat, time: nat, i: nat, total: nat, arrived: nat)
      requires first <= i <= RipeEnd(h, first, time, bound)
      requires RangeReleasable(h, first, i, total, arrived)
      requires var now := ReleaseRange(h, first, i, total, arrived);
        !(i in now && now[i].time <= time && !now[i].released)
      ensures i == RipeEnd(h, first, time, bound)
    {
    }

    /** Walks the user's entries in whatever order the storage yields them. */
    static method GetFinishedAmount(waits: Waits, histories: Histories, user: Addr) returns (amount: nat)
      ensures amount == Sum(OfUser(Payable(waits, histories), user))
    {
      amount := 0;
      ghost var owed := OfUser(Payable(waits, histories), user);
      ghost var left := owed;
      var todo := set k | k in waits && k.user == user;
      while todo != {}
        invariant todo <= waits.Keys && left.Keys <= todo <= waits.Keys
        invariant forall k :: k in left ==> k in owed && left[k] == owed[k]
        invariant forall k :: k in todo ==> k.user == user && (k in owed ==> k in left)
        invariant amount + Sum(left) == Sum(owed)
        decreases |todo|
      {
        var k :| k in todo;
        todo := todo - {k};
        if k.batch in histories && histories[k.batch].released {
          assert k in owed;
          SumRemove(left, k);
          amount := amount + Times(waits[k], histories[k.batch].withdrawRate);
          left := left - {k};
        }
      }
      assert left == map[];
    }

    method GetUnbondBatches(user: Addr) returns (batches: seq<nat>)
      ensures forall b :: b in batches <==> WaitKey(user, b) in Hub.Finished(Stored(), user)
    {
      batches := [];
      var todo := set k | k in waits && k.user == user;
      while todo != {}
        invariant todo <= waits.Keys && forall k :: k in todo ==> k.user == user
        invariant forall b :: b in batches <==>
          WaitKey(user, b) in Hub.Finished(Stored(), user) && WaitKey(user, b) !in todo
        decreases |todo|
      {
        var k :| k in todo;
        assert k == WaitKey(user, k.batch);
        todo := todo - {k};
        if k.batch in histories && histories[k.batch].released {
          batches := batches + [k.batch];
        }
      }
    }

    method RemoveUnbondWaitList(batches: seq<nat>, user: Addr)
      modifies this`waits
      ensures waits == old(waits) - set b | b in batches :: WaitKey(user, b)
    {
      ghost var removed: set<WaitKey> := {};
      for i := 0 to |batches|
        invariant removed == set b | b in batches[..i] :: WaitKey(user, b)
        invariant waits == old(waits) - removed
      {
        assert batches[..i + 1] == batches[..i] + [batches[i]];
        waits := waits - {WaitKey(user, batches[i])};
        removed := removed + {WaitKey(user, batches[i])};
      }
      assert batches[..|batches|] == batches;
    }

    static lemma KeysOfBatches(s: Storage, user: Addr, batches: seq<nat>)
      requires forall b :: b in batches <==> WaitKey(user, b) in Hub.Finished(s, user)
      ensures (set b | b in batches :: WaitKey(user, b)) == Hub.Finished(s, user).Keys
    {
    }

    /** Everything after `process_withdraw_rate`; on Err the caller restores. */
    method PayFinished(bank: nat, user: Addr) returns (r: Result<nat, Error>)
      requires Valid()
      modifies this`waits, this`state
      ensures match Hub.Pay(old(Stored()), bank, user)
        case Err(e) => r == Err(e)
        case Ok(paid) => r == Ok(paid.amount) && Stored() == paid.storage
      ensures Valid()
    {
      ghost var released := Stored();
      var withdrawAmount := GetFinishedAmount(waits, histories, user);
      if withdrawAmount == 0 {
        return Err(NothingWithdrawable);
      }
      var batches := GetUnbondBatches(user);
      RemoveUnbondWaitList(batches, user);
      KeysOfBatches(released, user, batches);
      if bank < withdrawAmount {
        return Err(InsufficientHubBalance);
      }
      state := state.(prevHubBalance := bank - withdrawAmount);
      return Ok(withdrawAmount);
    }

    /** Returns the coins sent to the user. */
    method ExecuteWithdrawUnbonded(env: Env, user: Addr) returns (r: Result<nat, Error>)
      requires Valid()
      modifies this
      ensures Valid()
      ensures match Hub.Withdraw(old(Stored()), env, user)
        case Err(e) => r == Err(e) && Stored() == old(Stored())
        case Ok(paid) => r == Ok(paid.amount) && Stored() == paid.storage
    {
      hide Process, Hub.Pay;
      var checkpoint := Stored();
      if env.now < params.unbondingPeriod {
        return Err(Underflow);
      }
      var historicalTime := env.now - params.unbondingPeriod;
      var processed := ProcessWithdrawRate(historicalTime, env.bank);
      if processed.Err? {
        return Err(processed.error);
      }
      r := PayFinished(env.bank, user);
      if r.Err? {
        Restore(checkpoint);
      }
    }
  }
}
