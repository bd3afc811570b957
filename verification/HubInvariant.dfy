/** What every hub call keeps: the life cycle of batches, the wait list books and
    the backing of the exchange rate. */
module HubInvariant {
  import opened Decimals
  import opened Sums
  import opened HubTypes
  import opened ExchangeRate
  import opened WithdrawRate
  import opened Hub

  // ------------------------------------------------------------- life cycle

  /** Histories exist for exactly the batches before the open one, closed at
      strictly increasing times; the released ones are exactly the prefix up to
      the last processed batch, the others still carry the rate they closed at. */
  ghost predicate Lifecycle(s: Storage) {
    && (forall b :: b in s.histories <==> 1 <= b < s.batch.id)
    && (forall b :: b in s.histories ==> HistoryFits(s, b))
    && (forall b, c :: b in s.histories && c in s.histories && b < c ==> s.histories[b].time < s.histories[c].time)
    && s.state.lastProcessedBatch < s.batch.id
    && s.state.actualUnbondedAmount == 0
  }

  predicate HistoryFits(s: Storage, b: nat)
    requires b in s.histories
  {
    && s.histories[b].batchId == b
    && s.histories[b].time <= s.state.lastUnbondedTime
    && (s.histories[b].released <==> b <= s.state.lastProcessedBatch)
    && (!s.histories[b].released ==> s.histories[b].withdrawRate == s.histories[b].appliedExchangeRate)
  }

  /** The round takes exactly the ripe batches. */
  lemma RoundIsExactlyRipe(s: Storage, time: nat)
    requires Lifecycle(s)
    ensures RoundStart(s) <= RoundEnd(s, time) <= s.batch.id
    ensures forall b :: b in s.histories ==>
      (RoundStart(s) <= b < RoundEnd(s, time) <==> !s.histories[b].released && s.histories[b].time <= time)
  {
    var first, end := RoundStart(s), RoundEnd(s, time);
    forall b | b in s.histories
      ensures first <= b < end <==> !s.histories[b].released && s.histories[b].time <= time
    {
      assert HistoryFits(s, b);
      if end <= b && !s.histories[b].released {
        assert HistoryFits(s, end);
        assert !Ripe(s.histories, end, time);
      }
    }
  }

  /** `after` is `before` with batches `i` to `j - 1` released and nothing else changed. */
  ghost predicate ReleasedBetween(before: Histories, after: Histories, i: nat, j: nat) {
    && after.Keys == before.Keys
    && (forall b :: b in before ==>
      && after[b] == before[b].(withdrawRate := after[b].withdrawRate, released := after[b].released)
      && (if i <= b < j then after[b].released else after[b] == before[b]))
  }

  lemma ReleaseRangeReleases(h: Histories, i: nat, j: nat, total: nat, arrived: nat)
    requires RangeReleasable(h, i, j, total, arrived)
    ensures ReleasedBetween(h, ReleaseRange(h, i, j, total, arrived), i, j)
  {
  }

  lemma ProcessReleases(s: Storage, time: nat, bank: nat)
    requires Lifecycle(s) && Process(s, time, bank).Ok?
    ensures var after := Process(s, time, bank).value;
      && ReleasedBetween(s.histories, after.histories, RoundStart(s), RoundEnd(s, time))
      && after == s.(
        histories := after.histories, state := s.state.(lastProcessedBatch := RoundEnd(s, time) - 1))
  {
    var first, end := RoundStart(s), RoundEnd(s, time);
    if first < end {
      ReleaseRangeReleases(s.histories, first, end, SumSeq(RoundExpected(s, time)), Arrived(s, bank));
    }
  }

  /** What a release round does: it marks released the ripe batches and no others,
      and touches no amount, no time, no earlier rate and no wait list entry. */
  ghost predicate RoundReleases(s: Storage, after: Storage, time: nat) {
    && after == s.(
      histories := after.histories, state := s.state.(lastProcessedBatch := after.state.lastProcessedBatch))
    && after.histories.Keys == s.histories.Keys
    && (forall b :: b in s.histories ==>
      && after.histories[b].amount == s.histories[b].amount
      && after.histories[b].time == s.histories[b].time
      && (after.histories[b].released <==> s.histories[b].released || s.histories[b].time <= time)
      && (s.histories[b].released ==> after.histories[b] == s.histories[b]))
  }

  /** A release keeps the life cycle and leaves no ripe batch behind. */
  lemma ProcessKeepsLifecycle(s: Storage, time: nat, bank: nat)
    requires Lifecycle(s) && Process(s, time, bank).Ok?
    ensures Lifecycle(Process(s, time, bank).value)
    ensures RoundReleases(s, Process(s, time, bank).value, time)
  {
    RoundIsExactlyRipe(s, time);
    ProcessReleases(s, time, bank);
    LifecycleAfterRound(s, Process(s, time, bank).value, time);
  }

  lemma LifecycleAfterRound(s: Storage, after: Storage, time: nat)
    requires Lifecycle(s)
    requires RoundStart(s) <= RoundEnd(s, time) <= s.batch.id
    requires forall b :: b in s.histories ==>
      (RoundStart(s) <= b < RoundEnd(s, time) <==> !s.histories[b].released && s.histories[b].time <= time)
    requires ReleasedBetween(s.histories, after.histories, RoundStart(s), RoundEnd(s, time))
    requires after == s.(
      histories := after.histories, state := s.state.(lastProcessedBatch := RoundEnd(s, time) - 1))
    ensures Lifecycle(after) && RoundReleases(s, after, time)
  {
    forall b | b in after.histories
      ensures HistoryFits(after, b)
    {
      assert HistoryFits(s, b);
    }
  }

  /** Closing a batch appends a history that is newer than all others. */
  lemma CloseKeepsLifecycle(s: Storage, now: nat)
    requires Lifecycle(s) && UndelegationAmount(s) <= s.state.totalBondAmount
    requires s.batch.id >= 1 && now > s.state.lastUnbondedTime
    ensures Lifecycle(Close(s, now))
  {
    var after := Close(s, now);
    forall b | b in after.histories
      ensures HistoryFits(after, b)
    {
      if b < s.batch.id {
        assert HistoryFits(s, b);
      }
    }
    forall b, c | b in after.histories && c in after.histories && b < c
      ensures after.histories[b].time < after.histories[c].time
    {
      assert HistoryFits(s, b);
    }
  }

  /** What a release round will expect for a batch is what closing it undelegates. */
  lemma CloseExpectsUndelegation(s: Storage, now: nat)
    requires UndelegationAmount(s) <= s.state.totalBondAmount
    ensures var after := Close(s, now); var history := after.histories[s.batch.id];
      && Expected(history) == UndelegationAmount(s) == s.state.totalBondAmount - after.state.totalBondAmount
      && history.amount == s.batch.requestedWithFee && !history.released
      && after.batch.requestedWithFee == 0
  {
  }

  lemma SameBatchesSameLifecycle(s: Storage, after: Storage)
    requires Lifecycle(s)
    requires after.histories == s.histories && after.batch.id == s.batch.id
    requires after.state.lastProcessedBatch == s.state.lastProcessedBatch
    requires after.state.lastUnbondedTime == s.state.lastUnbondedTime
    requires after.state.actualUnbondedAmount == s.state.actualUnbondedAmount
    ensures Lifecycle(after)
  {
    forall b | b in after.histories
      ensures HistoryFits(after, b)
    {
      assert HistoryFits(s, b);
    }
  }

  // -------------------------------------------------------------- wait list

  /** The waits of the open batch add up to its requests; the waits of a closed
      batch, together with the entries already paid, add up to its amount. Only
      entries of released batches have been paid and none of them is still waiting. */
  ghost predicate WaitsConserved(s: Storage, paid: Waits) {
    && (forall k :: k in s.waits ==> 1 <= k.batch <= s.batch.id)
    && (forall k :: k in paid ==> 1 <= k.batch <= s.state.lastProcessedBatch)
    && paid.Keys !! s.waits.Keys
    && BatchTotal(s.waits, s.batch.id) == s.batch.requestedWithFee
    && (forall b :: b in s.histories ==> BatchTotal(s.waits, b) + BatchTotal(paid, b) == s.histories[b].amount)
  }

  lemma EmptyBatch(w: Waits, b: nat)
    requires forall k :: k in w ==> k.batch != b
    ensures BatchTotal(w, b) == 0
  {
  }

  lemma AddWaitTotals(w: Waits, user: Addr, batch: nat, amount: nat, b: nat)
    ensures BatchTotal(AddWait(w, user, batch, amount), b) == BatchTotal(w, b) + (if b == batch then amount else 0)
  {
    var key := WaitKey(user, batch);
    var after := AddWait(w, user, batch, amount);
    if b == batch {
      var before := OfBatch(w, b);
      assert OfBatch(after, b) == before[key := after[key]];
      SumPut(before, key, after[key]);
    } else {
      assert OfBatch(after, b) == OfBatch(w, b);
    }
  }

  lemma RequestConserves(s: Storage, user: Addr, amount: nat, supply: nat, paid: Waits)
    requires Lifecycle(s) && WaitsConserved(s, paid)
    ensures WaitsConserved(Request(s, user, amount, supply), paid)
  {
    var after := Request(s, user, amount, supply);
    AddWaitTotals(s.waits, user, s.batch.id, amount, s.batch.id);
    forall b | b in s.histories
      ensures BatchTotal(after.waits, b) + BatchTotal(paid, b) == s.histories[b].amount
    {
      AddWaitTotals(s.waits, user, s.batch.id, amount, b);
    }
  }

  lemma CloseConserves(s: Storage, now: nat, paid: Waits)
    requires Lifecycle(s) && WaitsConserved(s, paid) && UndelegationAmount(s) <= s.state.totalBondAmount
    ensures WaitsConserved(Close(s, now), paid)
  {
    EmptyBatch(s.waits, s.batch.id + 1);
    EmptyBatch(paid, s.batch.id);
  }

  lemma SplitOfBatch(w: Waits, gone: Waits, b: nat)
    requires forall k :: k in gone ==> k in w && w[k] == gone[k]
    ensures BatchTotal(w, b) == BatchTotal(w - gone.Keys, b) + BatchTotal(gone, b)
  {
    SumSplit(OfBatch(w, b), OfBatch(w - gone.Keys, b), OfBatch(gone, b));
  }

  lemma UnionOfBatch(paid: Waits, gone: Waits, b: nat)
    requires paid.Keys !! gone.Keys
    ensures BatchTotal(paid + gone, b) == BatchTotal(paid, b) + BatchTotal(gone, b)
  {
    assert OfBatch(paid + gone, b) == OfBatch(paid, b) + OfBatch(gone, b);
    SumUnion(OfBatch(paid, b), OfBatch(gone, b));
  }

  /** Paying a user moves entries from the wait list to the paid ones. */
  lemma PayConserves(s: Storage, user: Addr, balanceAfter: nat, paid: Waits)
    requires Lifecycle(s) && WaitsConserved(s, paid)
    ensures Finished(s, user).Keys !! paid.Keys
    ensures WaitsConserved(PayUser(s, user, balanceAfter), paid + Finished(s, user))
  {
    var gone := Finished(s, user);
    var after := PayUser(s, user, balanceAfter);
    forall b | b in s.histories
      ensures BatchTotal(after.waits, b) + BatchTotal(paid + gone, b) == s.histories[b].amount
    {
      SplitOfBatch(s.waits, gone, b);
      UnionOfBatch(paid, gone, b);
    }
    SplitOfBatch(s.waits, gone, s.batch.id);
    EmptyBatch(gone, s.batch.id);
    forall k | k in paid + gone
      ensures 1 <= k.batch <= s.state.lastProcessedBatch
    {
      if k in gone {
        assert HistoryFits(s, k.batch);
      }
    }
  }

  lemma PayTakesUsersPart(s: Storage, user: Addr, balanceAfter: nat)
    ensures var after := PayUser(s, user, balanceAfter);
      Owed(s.waits, s.histories) == FinishedAmount(s, user) + Owed(after.waits, after.histories)
  {
    var after := PayUser(s, user, balanceAfter);
    OwedByUser(s.waits, s.histories, user);
    assert Payable(after.waits, after.histories) == NotOfUser(Payable(s.waits, s.histories), user);
  }

  // ---------------------------------------------------------------- backing

  predicate BackedStorage(s: Storage, supply: nat) {
    Backed(s.state.exchangeRate, Claims(s, supply), s.state.totalBondAmount)
  }

  /** The slashing check keeps the backing exactly when it does not find the bond
      wiped out under standing claims. */
  lemma SlashKeepsBacking(s: Storage, env: Env)
    requires BackedStorage(s, env.supply)
    ensures BackedStorage(Slash(s, env), env.supply) <==> !SlashesToZero(s, env)
  {
    RecomputedRateIsBacked(BondedIn(env.delegations, s.params.coinDenom), Claims(s, env.supply));
  }

  /** The price of every reachable hub: while something is bonded every claim is backed
      at the stored rate, and over an empty bond the rate is still positive. */
  predicate Priced(s: Storage, supply: nat) {
    if s.state.totalBondAmount > 0 then BackedStorage(s, supply) else s.state.exchangeRate > 0
  }

  /** A priced hub is backed exactly while something is bonded or nothing is claimed. */
  lemma PricedIsBackedExactly(s: Storage, supply: nat)
    requires Priced(s, supply)
    ensures BackedStorage(s, supply) <==> s.state.totalBondAmount > 0 || Claims(s, supply) == 0
    ensures s.state.exchangeRate * Claims(s, supply) <= s.state.totalBondAmount * ONE <==>
      s.state.totalBondAmount > 0 || Claims(s, supply) == 0
  {
    if s.state.totalBondAmount == 0 && Claims(s, supply) > 0 {
      MulMono(1, Claims(s, supply), s.state.exchangeRate);
    }
  }

  lemma SlashKeepsPrice(s: Storage, env: Env)
    requires Priced(s, env.supply)
    ensures Priced(Slash(s, env), env.supply)
  {
    RecomputedRateIsBacked(BondedIn(env.delegations, s.params.coinDenom), Claims(s, env.supply));
  }

  lemma RequestKeepsPrice(s: Storage, user: Addr, net: nat, amount: nat, supply: nat)
    requires amount <= supply
    ensures Priced(Request(s, user, net, supply - amount), supply - amount)
  {
    RecomputedRateIsBacked(s.state.totalBondAmount, supply - amount + s.batch.requestedWithFee + net);
  }

  lemma CloseKeepsPrice(s: Storage, now: nat, supply: nat)
    requires Priced(s, supply) && UndelegationAmount(s) <= s.state.totalBondAmount
    ensures Priced(Close(s, now), supply)
  {
    hide Backed;
    if s.state.totalBondAmount > 0 {
      CloseIsCovered(s, now, supply);
    }
  }

  lemma DepositIsBacked(s: Storage, payment: nat, minted: nat, supply: nat)
    requires payment > 0
    ensures BackedStorage(Deposit(s, payment, minted, supply), supply + minted)
  {
    RecomputedRateIsBacked(s.state.totalBondAmount + payment, Claims(s, supply + minted));
  }

  lemma RequestKeepsBacking(s: Storage, user: Addr, net: nat, amount: nat, supply: nat)
    requires BackedStorage(s, supply) && net <= amount <= supply
    ensures BackedStorage(Request(s, user, net, supply - amount), supply - amount)
  {
    RecomputedRateIsBacked(s.state.totalBondAmount, supply - amount + s.batch.requestedWithFee + net);
  }

  /** The undelegation never exceeds the stored bond, and although the rate is not
      recomputed the remaining supply stays backed. */
  lemma CloseIsCovered(s: Storage, now: nat, supply: nat)
    requires BackedStorage(s, supply)
    ensures UndelegationAmount(s) <= s.state.totalBondAmount
    ensures BackedStorage(Close(s, now), supply)
  {
    CloseKeepsBacking(s.state.exchangeRate, Claims(s, supply), s.state.totalBondAmount, s.batch.requestedWithFee);
  }

  /** The peg fee is all of `amount` x fee, unless less closes the gap between claims
      and bonded coins; then it is the gap. At the threshold there is none. */
  lemma PegFeeIsExact(s: Storage, amount: nat, claims: nat, bonded: nat)
    requires LessPegFee(s, amount, claims, bonded).Ok?
    ensures var net := LessPegFee(s, amount, claims, bonded).value;
      var full := Times(amount, s.params.pegRecoveryFee);
      && net <= amount && amount - net <= full
      && (s.state.exchangeRate >= s.params.erThreshold ==> net == amount)
      && (s.state.exchangeRate < s.params.erThreshold ==>
        bonded <= claims - (amount - net) && (amount - net == full || claims - (amount - net) == bonded))
  {
    hide Times;
  }
}
