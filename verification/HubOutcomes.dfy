/** What each hub call does, said from outside: when it succeeds, and the new value of
    everything it stores. Rates are given by the bounds they lie between, fees and
    amounts by their own arithmetic. A call starts from the slashing check or the
    release round, whose own outcomes come first. */
module HubOutcomes {
  import opened Decimals
  import opened Sums
  import opened HubTypes
  import opened Undelegations
  import opened ExchangeRate
  import opened Apportionment
  import opened WithdrawRate
  import opened Hub

  /** The price of `claims` tokens over `bond` coins: the largest rate at which the
      coins cover the tokens, and one where there are none of either. */
  predicate IsPrice(rate: nat, bond: nat, claims: nat) {
    if bond == 0 || claims == 0 then rate == ONE else IsFloor(rate, bond * ONE, claims)
  }

  function Price(bond: nat, claims: nat): (rate: nat)
    ensures IsPrice(rate, bond, claims)
  {
    if bond == 0 || claims == 0 then ONE
    else
      FromRatioFloor(bond, claims);
      bond * ONE / claims
  }

  lemma RateIsPrice(bond: nat, claims: nat)
    ensures Rate(bond, claims) == Price(bond, claims)
  {
  }

  // ------------------------------------------------------------ instantiation

  predicate IsPayment(coin: Coin, denom: string) {
    coin.denom == denom && coin.amount > 0
  }

  /** The payment is the first coin of the denomination that is not empty. */
  lemma {:induction false} PaymentIsFirst(funds: seq<Coin>, denom: string) returns (i: nat)
    ensures i <= |funds| && forall j :: 0 <= j < i ==> !IsPayment(funds[j], denom)
    ensures i == |funds| ==> FindPayment(funds, denom) == None
    ensures i < |funds| ==> IsPayment(funds[i], denom) && FindPayment(funds, denom) == Some(funds[i].amount)
  {
    if |funds| == 0 || IsPayment(funds[0], denom) {
      i := 0;
    } else {
      var k := PaymentIsFirst(funds[1..], denom);
      i := k + 1;
      forall j | 0 <= j < i
        ensures !IsPayment(funds[j], denom)
      {
        assert j > 0 ==> funds[j] == funds[1..][j - 1];
      }
    }
  }

  // ----------------------------------------------------------------- slashing

  /** The coins of a list of delegations: each one counts exactly if it is in the
      staking denomination, wherever it stands. */
  lemma {:induction false} BondedInAdds(a: seq<Delegation>, b: seq<Delegation>, denom: string)
    ensures BondedIn(a + b, denom) == BondedIn(a, denom) + BondedIn(b, denom)
    ensures BondedIn([], denom) == 0
    ensures forall d: Delegation :: BondedIn([d], denom) == if d.denom == denom then d.amount else 0
  {
    forall d: Delegation
      ensures BondedIn([d], denom) == if d.denom == denom then d.amount else 0
    {
      assert [d][..0] == [];
    }
    if |b| == 0 {
      assert a + b == a;
    } else {
      var n := |b| - 1;
      assert (a + b)[..|a| + n] == a + b[..n] && (a + b)[|a| + n] == b[n];
      BondedInAdds(a, b[..n], denom);
    }
  }

  /** The slashing check records the smaller of bond and delegations; it sets the price
      of what is left over supply and open requests if the bond fell, and changes
      nothing else. Without delegations it does nothing. */
  lemma SlashOutcome(s: Storage, env: Env)
    ensures var bonded, after := BondedIn(env.delegations, s.params.coinDenom), Slash(s, env);
      var bond, left := s.state.totalBondAmount, after.state.totalBondAmount;
      && left == (if |env.delegations| == 0 || bond <= bonded then bond else bonded)
      && after == s.(state := s.state.(totalBondAmount := left, exchangeRate := after.state.exchangeRate))
      && (left == bond ==> after == s)
      && (left < bond ==> IsPrice(after.state.exchangeRate, left, env.supply + s.batch.requestedWithFee))
  {
    RateIsPrice(BondedIn(env.delegations, s.params.coinDenom), env.supply + s.batch.requestedWithFee);
  }

  // ------------------------------------------------------------------ peg fee

  /** What is left of `amount` once the peg recovery fee is taken: below the threshold
      the fee is the given fraction, but not more than closes the gap between `claims`
      and `bond`. Neither the gap nor what is left may be negative. */
  function Net(amount: nat, rate: nat, p: Params, claims: nat, bond: nat): Option<nat> {
    if rate >= p.erThreshold then Some(amount)
    else if claims < bond then None
    else
      var fraction := amount * p.pegRecoveryFee / ONE;
      var gap := claims - bond;
      if amount < fraction && amount < gap then None
      else Some(amount - (if fraction <= gap then fraction else gap))
  }

  lemma NetOfPegFee(s: Storage, amount: nat, claims: nat, bonded: nat)
    ensures var net := Net(amount, s.state.exchangeRate, s.params, claims, bonded);
      LessPegFee(s, amount, claims, bonded) == if net.None? then Err(Underflow) else Ok(net.value)
  {
  }

  // --------------------------------------------------------------------- bond

  /** The tokens a payment buys before any fee: payment / rate, the rate cut to nine
      fractional digits. */
  function Bought(payment: nat, rate: nat): Option<nat> {
    if rate < NINE_DIGITS then None else Some(payment * ONE / (rate - rate % NINE_DIGITS))
  }

  /** A single coin of the staking denomination for a whitelisted validator. */
  predicate Bondable(s: Storage, validator: string, funds: seq<Coin>) {
    validator in s.whitelist && |funds| == 1 && IsPayment(funds[0], s.params.coinDenom)
  }

  /** The tokens minted for a payment at the rate and bond the slashing check leaves. */
  function Minted(s: Storage, supply: nat, payment: nat): Option<nat> {
    var rate := s.state.exchangeRate;
    match Bought(payment, rate)
    case None => None
    case Some(q) =>
      Net(q, rate, s.params, supply + q + s.batch.requestedWithFee, s.state.totalBondAmount + payment)
  }

  /** A bond succeeds exactly if it is allowed, the rate is at least 10^-9 and the fee
      can be taken. Then it mints what the payment buys less the fee, adds the payment
      to the bond, sets the new price, and changes nothing else. */
  lemma BondOutcome(s: Storage, env: Env, validator: string, funds: seq<Coin>)
    ensures var r := Bond(s, env, validator, funds); var checked := Slash(s, env);
      && (r.Ok? <==> Bondable(s, validator, funds) && Minted(checked, env.supply, funds[0].amount).Some?)
      && (r.Ok? ==>
        var payment, bond, rate := funds[0].amount, r.value.storage.state.totalBondAmount,
          r.value.storage.state.exchangeRate;
        && r.value.payment == payment
        && r.value.minted == Minted(checked, env.supply, payment).value
        && bond == checked.state.totalBondAmount + payment
        && IsPrice(rate, bond, env.supply + r.value.minted + s.batch.requestedWithFee)
        && r.value.storage == s.(state := s.state.(exchangeRate := rate, totalBondAmount := bond)))
  {
    hide BondedIn, DecimalDivision, Rate, LessPegFee, Net;
    var checked := Slash(s, env);
    var i := PaymentIsFirst(funds, s.params.coinDenom);
    if Bondable(s, validator, funds) {
      var payment, rate := funds[0].amount, checked.state.exchangeRate;
      DecimalDivisionClosedForm(payment, rate);
      if rate >= NINE_DIGITS {
        var q, bond := Bought(payment, rate).value, checked.state.totalBondAmount + payment;
        NetOfPegFee(checked, q, env.supply + q + s.batch.requestedWithFee, bond);
        var minted := Minted(checked, env.supply, payment);
        if minted.Some? {
          RateIsPrice(bond, env.supply + minted.value + s.batch.requestedWithFee);
        }
      }
    }
  }

  // ------------------------------------------------------------------- unbond

  function WaitOf(w: Waits, k: WaitKey): nat {
    if k in w then w[k] else 0
  }

  /** `after` is `before` with `amount` more for one entry. */
  ghost predicate Booked(before: Waits, after: Waits, key: WaitKey, amount: nat) {
    && after.Keys == before.Keys + {key}
    && forall k :: WaitOf(after, k) == WaitOf(before, k) + (if k == key then amount else 0)
  }

  /** More than an epoch has passed since the last batch closed. */
  predicate Due(s: Storage, now: nat) {
    s.state.lastUnbondedTime + s.params.epochPeriod < now
  }

  /** What an unbond of `amount` books for the user, after the slashing check. */
  function BookedFor(s: Storage, supply: nat, amount: nat): Option<nat> {
    Net(amount, s.state.exchangeRate, s.params, supply + s.batch.requestedWithFee, s.state.totalBondAmount)
  }

  /** A batch of `requested` tokens can close at `rate`: it is worth none or at least two
      coins, and no more than is delegated and than is recorded as bonded. */
  predicate CanClose(requested: nat, rate: nat, ds: seq<Delegation>, bond: nat) {
    var coins := requested * rate / ONE;
    coins != 1 && coins <= Total(ds) && coins <= bond
  }

  /** Everything an unbond stores while the epoch lasts. */
  ghost predicate LeftOpen(s: Storage, bond: nat, net: nat, done: Unbonded, rate: nat) {
    && done.undelegations == []
    && done.storage == s.(
      state := s.state.(totalBondAmount := bond, exchangeRate := rate),
      batch := CurrentBatch(s.batch.id, s.batch.requestedWithFee + net),
      waits := done.storage.waits)
  }

  /** Everything an unbond stores when it closes the batch. */
  ghost predicate ClosedAt(s: Storage, bond: nat, net: nat, now: nat, done: Unbonded, rate: nat) {
    var id, requested := s.batch.id, s.batch.requestedWithFee + net;
    var coins := requested * rate / ONE;
    && coins <= bond && MessageTotal(done.undelegations) == coins
    && done.storage == s.(
      state := s.state.(totalBondAmount := bond - coins, exchangeRate := rate, lastUnbondedTime := now),
      batch := CurrentBatch(id + 1, 0),
      histories := s.histories[id := UnbondHistory(id, now, requested, rate, rate, false)],
      waits := done.storage.waits)
  }

  /** The price an unbond of `amount`, booked as `net`, leaves over `bond`. */
  function PriceAfter(s: Storage, bond: nat, supply: nat, amount: nat, net: nat): nat
    requires amount <= supply
  {
    Price(bond, supply - amount + s.batch.requestedWithFee + net)
  }

  /** An unbond succeeds exactly if the fee can be taken, the supply covers the amount,
      time has not run backwards and, when an epoch has passed, the batch can close.
      It books the amount less the fee for the user and for nobody else, sets the new
      price, and closes the batch exactly when more than an epoch has passed. */
  lemma UnbondOutcome(s: Storage, env: Env, user: Addr, amount: nat, rng: nat -> nat)
    ensures var r := Unbond(s, env, user, amount, rng); var checked := Slash(s, env);
      var bond, net := checked.state.totalBondAmount, BookedFor(checked, env.supply, amount);
      && (r.Ok? <==>
        && net.Some? && amount <= env.supply && s.state.lastUnbondedTime <= env.now
        && (Due(s, env.now) ==>
          CanClose(s.batch.requestedWithFee + net.value, PriceAfter(s, bond, env.supply, amount, net.value),
            env.delegations, bond)))
      && (r.Ok? ==>
        var rate := PriceAfter(s, bond, env.supply, amount, net.value);
        && r.value.amountWithFee == net.value
        && Booked(s.waits, r.value.storage.waits, WaitKey(user, s.batch.id), net.value)
        && (r.value.storage.batch.id == s.batch.id + 1 <==> Due(s, env.now))
        && (Due(s, env.now) ==> ClosedAt(s, bond, net.value, env.now, r.value, rate))
        && (!Due(s, env.now) ==> LeftOpen(s, bond, net.value, r.value, rate)))
  {
    hide Slash, Rate, LessPegFee, Net, Price, Total, CloseIfDue, CanClose;
    SlashOutcome(s, env);
    var checked := Slash(s, env);
    var claims, bond := env.supply + s.batch.requestedWithFee, checked.state.totalBondAmount;
    NetOfPegFee(checked, amount, claims, bond);
    var net := BookedFor(checked, env.supply, amount);
    if net.Some? && amount <= env.supply {
      RateIsPrice(bond, env.supply - amount + (s.batch.requestedWithFee + net.value));
      CloseOutcome(Request(checked, user, net.value, env.supply - amount), env, net.value, rng);
    }
  }

  lemma CloseOutcome(s: Storage, env: Env, net: nat, rng: nat -> nat)
    ensures var r, rate, bond := CloseIfDue(s, env, net, rng), s.state.exchangeRate, s.state.totalBondAmount;
      && (r.Ok? <==>
        && s.state.lastUnbondedTime <= env.now
        && (Due(s, env.now) ==> CanClose(s.batch.requestedWithFee, rate, env.delegations, bond)))
      && (r.Ok? ==>
        && r.value.amountWithFee == net && r.value.storage.waits == s.waits
        && (Due(s, env.now) ==> ClosedAt(s, bond, 0, env.now, r.value, rate))
        && (!Due(s, env.now) ==> r.value.storage == s && r.value.undelegations == []))
  {
    hide Pick, Total;
    var coins := UndelegationAmount(s);
    PickSucceedsIff(env.delegations, coins, rng, 0);
    if coins <= Total(env.delegations) {
      PickAddsUp(env.delegations, coins, rng, 0);
    }
  }

  // ------------------------------------------------------------ release round

  /** The coins a batch closed for. */
  function CoinsOf(history: UnbondHistory): nat {
    history.amount * history.withdrawRate / ONE
  }

  /** A batch can be released unless it is empty, all batches are worthless or its
      part of a surplus is less than a coin. */
  predicate CanBeReleased(history: UnbondHistory, total: nat, arrived: nat) {
    && history.amount > 0 && total > 0
    && (total < arrived ==> ONE <= (arrived - total) * (CoinsOf(history) * ONE / total))
  }

  /** A batch before and after its release: the new rate is the largest at which the
      coins it is credited cover it, and nothing else changes. */
  ghost predicate ReleasedAs(before: UnbondHistory, after: UnbondHistory, total: nat, arrived: nat) {
    && CanRelease(CoinsOf(before), total, arrived)
    && after == before.(withdrawRate := after.withdrawRate, released := true)
    && IsFloor(after.withdrawRate, Actual(CoinsOf(before), total, arrived) * ONE, before.amount)
  }

  lemma ReleaseOutcome(history: UnbondHistory, total: nat, arrived: nat)
    ensures Expected(history) == CoinsOf(history)
    ensures Releasable(history, total, arrived) <==> CanBeReleased(history, total, arrived)
    ensures Releasable(history, total, arrived) ==>
      ReleasedAs(history, Release(history, total, arrived), total, arrived)
  {
    hide Actual;
    if total > 0 && total < arrived {
      TimesFloor(arrived - total, CoinsOf(history) * ONE / total);
    }
    if Releasable(history, total, arrived) {
      ReleasedRate(history, total, arrived);
    }
  }

  /** The coins a round finds: the change of the bank balance since the last payout. */
  function Found(s: Storage, bank: nat): nat {
    var prev := s.state.prevHubBalance;
    s.state.actualUnbondedAmount + (if prev <= bank then bank - prev else prev - bank)
  }

  /** The batches of a round, the coins they closed for and the coins found for them. */
  lemma RoundOutcome(s: Storage, time: nat, bank: nat)
    ensures Arrived(s, bank) == Found(s, bank) && RoundStart(s) == s.state.lastProcessedBatch + 1
    ensures forall b :: RoundStart(s) <= b < RoundEnd(s, time) ==>
      RoundExpected(s, time)[b - RoundStart(s)] == CoinsOf(s.histories[b])
  {
    hide Expected, CoinsOf, RipeEnd, ExpectedFrom;
    forall b | RoundStart(s) <= b < RoundEnd(s, time)
      ensures RoundExpected(s, time)[b - RoundStart(s)] == CoinsOf(s.histories[b])
    {
      ExpectedAt(s.histories, RoundStart(s), RoundEnd(s, time), b);
      ReleaseOutcome(s.histories[b], 0, 0);
    }
  }

  /** A round succeeds exactly if every ripe batch can be released. Then each of them
      is, and nothing else changes but the last processed batch. */
  lemma ProcessOutcome(s: Storage, time: nat, bank: nat)
    ensures var r, arrived, total := Process(s, time, bank), Found(s, bank), SumSeq(RoundExpected(s, time));
      var first, end := s.state.lastProcessedBatch + 1, RoundEnd(s, time);
      && (r.Ok? <==> forall b :: first <= b < end ==> CanBeReleased(s.histories[b], total, arrived))
      && (r.Ok? ==>
        && r.value == s.(
          histories := r.value.histories,
          state := s.state.(actualUnbondedAmount := 0, lastProcessedBatch := end - 1))
        && r.value.histories.Keys == s.histories.Keys
        && forall b :: b in s.histories ==>
          if first <= b < end then ReleasedAs(s.histories[b], r.value.histories[b], total, arrived)
          else r.value.histories[b] == s.histories[b])
  {
    hide RipeEnd, SumSeq, Releasable, CanBeReleased, ReleasedAs, RoundExpected, Arrived, Found, Release;
    RoundOutcome(s, time, bank);
    var total, arrived := SumSeq(RoundExpected(s, time)), Found(s, bank);
    forall b | RoundStart(s) <= b < RoundEnd(s, time)
      ensures Releasable(s.histories[b], total, arrived) <==> CanBeReleased(s.histories[b], total, arrived)
      ensures Releasable(s.histories[b], total, arrived) ==>
        ReleasedAs(s.histories[b], Release(s.histories[b], total, arrived), total, arrived)
    {
      ReleaseOutcome(s.histories[b], total, arrived);
    }
  }

  // --------------------------------------------------------------- withdrawal

  /** The entry belongs to the user and its batch is released. */
  predicate IsFinished(k: WaitKey, h: Histories, user: Addr) {
    k.user == user && k.batch in h && h[k.batch].released
  }

  /** Each finished entry of the user with its tokens at the rate of its batch. */
  function Withdrawable(w: Waits, h: Histories, user: Addr): Waits {
    map k | k in w && IsFinished(k, h, user) :: w[k] * h[k.batch].withdrawRate / ONE
  }

  /** Every other entry. */
  function Unfinished(w: Waits, h: Histories, user: Addr): Waits {
    map k | k in w && !IsFinished(k, h, user) :: w[k]
  }

  /** The payout of the user's finished entries: exactly these are paid and removed, and
      what is left in the bank is stored. */
  ghost predicate PaidOff(s: Storage, bank: nat, user: Addr, done: Withdrawn) {
    && done.amount == Sum(Withdrawable(s.waits, s.histories, user)) <= bank
    && done.storage == s.(
      state := s.state.(prevHubBalance := bank - done.amount), waits := Unfinished(s.waits, s.histories, user))
  }

  /** A withdrawal succeeds exactly if the round does and the user's finished entries
      are worth something the bank balance covers; then it pays them off. */
  lemma WithdrawOutcome(s: Storage, env: Env, user: Addr)
    ensures var r := Withdraw(s, env, user);
      if env.now < s.params.unbondingPeriod then r.Err?
      else
        var round := Process(s, env.now - s.params.unbondingPeriod, env.bank);
        && (r.Ok? <==>
          round.Ok? && 0 < Sum(Withdrawable(round.value.waits, round.value.histories, user)) <= env.bank)
        && (r.Ok? ==> PaidOff(round.value, env.bank, user, r.value))
  {
    hide Process, Pay, Withdrawable, PaidOff;
    if env.now >= s.params.unbondingPeriod {
      var round := Process(s, env.now - s.params.unbondingPeriod, env.bank);
      if round.Ok? {
        PayOutcome(round.value, env.bank, user);
      }
    }
  }

  lemma PayOutcome(s: Storage, bank: nat, user: Addr)
    ensures var r := Pay(s, bank, user);
      && (r.Ok? <==> 0 < Sum(Withdrawable(s.waits, s.histories, user)) <= bank)
      && (r.Ok? ==> PaidOff(s, bank, user, r.value))
  {
    hide Sum, Finished, FinishedAmount, Withdrawable, Unfinished;
    FinishedOutcome(s, user);
  }

  lemma FinishedOutcome(s: Storage, user: Addr)
    ensures FinishedAmount(s, user) == Sum(Withdrawable(s.waits, s.histories, user))
    ensures s.waits - Finished(s, user).Keys == Unfinished(s.waits, s.histories, user)
  {
    hide Sum;
    assert OfUser(Payable(s.waits, s.histories), user) == Withdrawable(s.waits, s.histories, user);
  }
}
