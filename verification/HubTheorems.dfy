/** What follows for users and for the hub's own arithmetic in every run. */
module HubTheorems {
  import opened Decimals
  import opened Sums
  import opened HubTypes
  import opened Undelegations
  import opened ExchangeRate
  import opened Apportionment
  import opened WithdrawRate
  import opened Hub
  import opened HubInvariant
  import opened HubRuns

  // ---------------------------------------------------------------- solvency

  /** If the round a withdrawal would trigger now succeeds, it is covered. */
  predicate CoveredRound(w: World) {
    RoundSucceeds(w) ==>
      var us := RoundExpected(w.hub, HistoricalTime(w));
      SumSeq(us) > 0 ==> Covered(us, Arrived(w.hub, w.bank))
  }

  /** A successful round over-credits nothing if and only if it is covered. */
  lemma ExcessExactly(w: World)
    requires RoundSucceeds(w)
    ensures Excess(w) == 0 <==> CoveredRound(w)
  {
    hide Covered, CreditSum, Arrived, Releasable;
    var time := HistoricalTime(w);
    var first, end := RoundStart(w.hub), RoundEnd(w.hub, time);
    var us, arrived := RoundExpected(w.hub, time), Arrived(w.hub, w.bank);
    if first < end {
      RangeAllRelease(w.hub.histories, first, end, SumSeq(us), arrived);
      assert CanRelease(us[0], SumSeq(us), arrived);
      CreditsAtMostArrivedExactly(us, arrived);
    } else {
      assert us == [];
    }
  }

  /** Every withdrawal of the run that pays comes from a covered round. */
  ghost predicate CoveredRun(w: World, events: seq<Event>)
    decreases |events|
  {
    |events| > 0 ==>
      && (events[0].WithdrawCall? && Withdraw(w.hub, EnvOf(w), events[0].user).Ok? ==> CoveredRound(w))
      && CoveredRun(Next(w, events[0]), events[1..])
  }

  lemma OvercreditStep(w: World, e: Event)
    ensures w.overcredit <= Next(w, e).overcredit
    ensures Next(w, e).overcredit == w.overcredit <==>
      (e.WithdrawCall? && Withdraw(w.hub, EnvOf(w), e.user).Ok? ==> CoveredRound(w))
  {
    hide Excess, Unbond, Bond, CoveredRound, Process, Pay;
    if e.WithdrawCall? && Withdraw(w.hub, EnvOf(w), e.user).Ok? {
      ExcessExactly(w);
    }
  }

  /** A run over-credits nothing if and only if its paying rounds are covered. */
  lemma {:induction false} OvercreditExactly(w: World, events: seq<Event>)
    ensures w.overcredit <= Run(w, events).overcredit
    ensures Run(w, events).overcredit == w.overcredit <==> CoveredRun(w, events)
    decreases |events|
  {
    hide Next, CoveredRound, Withdraw;
    if |events| == 0 {
    } else {
      OvercreditStep(w, events[0]);
      OvercreditExactly(Next(w, events[0]), events[1..]);
    }
  }

  /** The round is clean, and (batches x shortfall) is within 10^18. */
  predicate CleanWithdrawal(w: World) {
    w.now >= w.hub.params.unbondingPeriod ==>
      var us, arrived := RoundExpected(w.hub, HistoricalTime(w)), Arrived(w.hub, w.bank);
      Clean(us, arrived) && (arrived < SumSeq(us) ==> |us| * (SumSeq(us) - arrived) <= ONE)
  }

  ghost predicate CleanRun(w: World, events: seq<Event>)
    decreases |events|
  {
    |events| > 0 ==>
      (events[0].WithdrawCall? ==> CleanWithdrawal(w)) && CleanRun(Next(w, events[0]), events[1..])
  }

  lemma CleanRoundIsCovered(w: World)
    requires CleanWithdrawal(w)
    ensures CoveredRound(w)
  {
    hide Covered, RoundExpected, Arrived, Process;
    if RoundSucceeds(w) && SumSeq(RoundExpected(w.hub, HistoricalTime(w))) > 0 {
      CleanIsCovered(RoundExpected(w.hub, HistoricalTime(w)), Arrived(w.hub, w.bank));
    }
  }

  /** Rounds in which every batch is worth something, and some coins arrived if any
      are missing, make a covered run. */
  lemma {:induction false} CleanRunIsCovered(w: World, events: seq<Event>)
    requires CleanRun(w, events)
    ensures CoveredRun(w, events)
    decreases |events|
  {
    hide Next, CleanWithdrawal, CoveredRound, Withdraw;
    if |events| == 0 {
    } else {
      if events[0].WithdrawCall? {
        CleanRoundIsCovered(w);
      }
      CleanRunIsCovered(Next(w, events[0]), events[1..]);
    }
  }

  /** A payout can only exceed the balance after some round over-credited. */
  lemma PayoutIsCovered(w: World, events: seq<Event>, user: Addr)
    requires Initial(w)
    ensures var v := Run(w, events);
      && (Withdraw(v.hub, EnvOf(v), user) == Err(InsufficientHubBalance) ==>
        RoundSucceeds(v) && v.overcredit + Excess(v) > 0)
      && (RoundSucceeds(v) ==> FinishedAmount(AfterRound(v), user) <= v.bank + v.overcredit + Excess(v))
  {
    hide Run, Books, Process, FinishedAmount, Excess, Lifecycle, WaitsConserved, Owed, Initial;
    ReachableInv(w, events);
    var v := Run(w, events);
    if RoundSucceeds(v) {
      RoundBooks(v);
      RoundSolvency(v);
      PayTakesUsersPart(AfterRound(v), user, 0);
    } else if v.now >= v.hub.params.unbondingPeriod {
      ProcessFailsOnlyInRelease(v.hub, HistoricalTime(v), v.bank);
    }
  }

  lemma ReachableInv(w: World, events: seq<Event>)
    requires Initial(w)
    ensures Inv(Run(w, events))
  {
    hide Run, Inv;
    InitialInv(w);
    RunInv(w, events);
  }

  lemma ProcessFailsOnlyInRelease(s: Storage, time: nat, bank: nat)
    ensures Process(s, time, bank).Err? ==> Process(s, time, bank).error == ReleaseFailed
  {
  }

  /** In every run whose paying rounds are covered, the hub holds enough for every
      released claim, never pays more than arrived, and no payout of a covered round
      fails for lack of funds. */
  lemma HubSolvency(w: World, events: seq<Event>, user: Addr)
    requires Initial(w) && CoveredRun(w, events)
    ensures var v := Run(w, events);
      && Owed(v.hub.waits, v.hub.histories) <= v.hub.state.prevHubBalance <= v.bank
      && v.paidOut <= v.arrived
      && (CoveredRound(v) ==> Withdraw(v.hub, EnvOf(v), user) != Err(InsufficientHubBalance))
  {
    hide Withdraw, CoveredRun, CoveredRound, Owed, Excess, Run, RoundSucceeds;
    ReachableInv(w, events);
    OvercreditExactly(w, events);
    var v := Run(w, events);
    PayoutIsCovered(w, events, user);
    if RoundSucceeds(v) {
      ExcessExactly(v);
    }
    NothingAtStart(w);
    SolventAtEnd(v);
  }

  lemma NothingAtStart(w: World)
    requires Initial(w)
    ensures w.overcredit == 0
  {
  }

  lemma SolventAtEnd(v: World)
    requires Inv(v)
    ensures Owed(v.hub.waits, v.hub.histories) <= v.hub.state.prevHubBalance + v.overcredit
    ensures v.hub.state.prevHubBalance <= v.bank && v.bank + v.paidOut == v.arrived
  {
    hide Lifecycle, WaitsConserved, Owed;
  }

  // -------------------------------------------------- what a batch pays out

  /** What a batch that a round of `w` releases pays its users: `entries` of them. */
  ghost predicate PaysOut(w: World, b: nat, actual: nat, entries: nat) {
    var paid := BatchTotal(Payable(w.hub.waits, AfterRound(w).histories), b);
    && b in w.hub.histories
    && paid <= actual
    && actual * ONE < (paid + entries) * ONE + w.hub.histories[b].amount
  }

  /** In every run, a released batch pays its users all the coins it was credited, less
      at most one coin for each entry and the rounding of the rate. */
  lemma ReleasedBatchPaysOut(w: World, events: seq<Event>, b: nat)
    requires Initial(w)
    ensures var v := Run(w, events);
      RoundSucceeds(v) && RoundStart(v.hub) <= b < RoundEnd(v.hub, HistoricalTime(v)) ==>
        var us, arrived := RoundExpected(v.hub, HistoricalTime(v)), Arrived(v.hub, v.bank);
        && CanRelease(us[b - RoundStart(v.hub)], SumSeq(us), arrived)
        && PaysOut(v, b, Actual(us[b - RoundStart(v.hub)], SumSeq(us), arrived), |OfBatch(v.hub.waits, b)|)
  {
    hide Run, Initial, Actual, CanRelease, Process, RipeEnd, Priced, ExpectedFrom, SumSeq, Arrived, Lifecycle;
    hide WaitsConserved, Solvent, Sum, OfBatch, Payable, AtRate, FromRatio, Expected, HistoricalTime;
    ReachableInv(w, events);
    var v := Run(w, events);
    if RoundSucceeds(v) && RoundStart(v.hub) <= b < RoundEnd(v.hub, HistoricalTime(v)) {
      NothingPaidYet(v, b);
      RoundReleasesBatch(v, b);
      var us, arrived := RoundExpected(v.hub, HistoricalTime(v)), Arrived(v.hub, v.bank);
      var history := v.hub.histories[b];
      BatchOwesAtMostActual(v.hub.waits, history, b, SumSeq(us), arrived);
      BatchPaysNearlyActual(v.hub.waits, history, b, SumSeq(us), arrived);
      PayableOfBatch(v.hub.waits, AfterRound(v).histories, b);
    }
  }

  lemma PayableOfBatch(w: Waits, h: Histories, b: nat)
    requires IsReleased(h, b)
    ensures OfBatch(Payable(w, h), b) == AtRate(OfBatch(w, b), h[b].withdrawRate)
  {
    hide Times;
  }

  /** Nothing of a batch has been paid before it is released. */
  lemma NothingPaidYet(w: World, b: nat)
    requires Books(w) && b in w.hub.histories && !w.hub.histories[b].released
    ensures BatchTotal(w.hub.waits, b) == w.hub.histories[b].amount
  {
    hide BatchTotal, Solvent;
    assert HistoryFits(w.hub, b);
    EmptyBatch(w.paidEntries, b);
  }

  lemma RoundReleasesBatch(w: World, b: nat)
    requires RoundSucceeds(w) && RoundStart(w.hub) <= b < RoundEnd(w.hub, HistoricalTime(w))
    ensures var us, arrived := RoundExpected(w.hub, HistoricalTime(w)), Arrived(w.hub, w.bank);
      && b in w.hub.histories && !w.hub.histories[b].released
      && us[b - RoundStart(w.hub)] == Expected(w.hub.histories[b])
      && Releasable(w.hub.histories[b], SumSeq(us), arrived)
      && AfterRound(w).histories.Keys == w.hub.histories.Keys
      && AfterRound(w).histories[b] == Release(w.hub.histories[b], SumSeq(us), arrived)
  {
    hide Releasable, Release, Expected, Arrived, RipeEnd, ExpectedFrom, SumSeq;
    ExpectedAt(w.hub.histories, RoundStart(w.hub), RoundEnd(w.hub, HistoricalTime(w)), b);
  }

  // --------------------------------------------------------- example rounds

  lemma RunTwo(w: World, a: Event, b: Event)
    ensures Run(w, [a, b]) == Next(Next(w, a), b)
  {
    hide Next;
    assert [a, b][1..] == [b] && [b][1..] == [];
    assert Run(Next(w, a), [b]) == Next(Next(w, a), b);
  }

  lemma RunThree(w: World, a: Event, b: Event, c: Event)
    ensures Run(w, [a, b, c]) == Next(Next(Next(w, a), b), c)
  {
    hide Next;
    assert [a, b, c][1..] == [b, c];
    RunTwo(Next(w, a), b, c);
  }

  /** One coin bonded with one validator for every token, and no open request. */
  predicate AtPar(w: World) {
    && w.hub.state.exchangeRate == ONE && w.hub.params.erThreshold <= ONE
    && w.hub.state.totalBondAmount == w.supply && w.hub.batch.requestedWithFee == 0
    && |w.delegations| == 1 && w.delegations[0].denom == w.hub.params.coinDenom
    && w.delegations[0].amount == w.supply
  }

  lemma InitialAtPar(w: World)
    requires Initial(w) && w.supply == w.hub.state.totalBondAmount && w.hub.params.erThreshold <= ONE
    ensures AtPar(w)
  {
  }

  /** Ten tokens unbonded at par close their batch at the rate one. */
  function TenClosed(w: World, user: Addr): Storage
    requires w.hub.state.totalBondAmount >= 10
  {
    var s, b := w.hub, w.hub.batch.id;
    s.(
      state := s.state.(totalBondAmount := s.state.totalBondAmount - 10, lastUnbondedTime := w.now),
      histories := s.histories[b := UnbondHistory(b, w.now, 10, ONE, ONE, false)],
      batch := CurrentBatch(b + 1, 0),
      waits := s.waits[WaitKey(user, b) := 10])
  }

  lemma UnbondTenCloses(w: World, user: Addr, rng: nat -> nat)
    requires AtPar(w) && w.supply >= 10 && WaitKey(user, w.hub.batch.id) !in w.hub.waits
    requires w.now > w.hub.state.lastUnbondedTime + w.hub.params.epochPeriod
    ensures var closed := NextUnbond(w, user, 10, rng);
      && closed == w.(hub := TenClosed(w, user), supply := w.supply - 10, delegations := closed.delegations)
      && AtPar(closed)
  {
    hide Pick, WithinDelegations;
    var ds := w.delegations;
    assert ds[..0] == [] && BondedIn(ds, w.hub.params.coinDenom) == Total(ds) == w.supply;
    assert !FindsSlash(w.hub, EnvOf(w));
    DivUnique(w.supply * ONE, w.supply, ONE);
    var booked := Request(w.hub, user, 10, w.supply - 10);
    assert booked.state.exchangeRate == ONE && UndelegationAmount(booked) == 10;
    PickLowersTotal(ds, 10, rng);
    var left := After(ds, Pick(ds, 10, rng, 0).value);
    assert left[..0] == [] && Total(left) == left[0].amount;
  }

  /** Batch `b` is the only ripe one: ten tokens closed at the rate one. */
  predicate TenRipe(s: Storage, b: nat, time: nat) {
    && s.state.lastProcessedBatch + 1 == b < s.batch.id
    && b in s.histories && s.histories[b] == UnbondHistory(b, s.histories[b].time, 10, ONE, ONE, false)
    && s.histories[b].time <= time && (b + 1 in s.histories ==> time < s.histories[b + 1].time)
  }

  /** The round gives all it credits to that batch. */
  lemma TenRound(s: Storage, b: nat, time: nat, bank: nat, credit: nat)
    requires TenRipe(s, b, time) && CanRelease(10, 10, Arrived(s, bank))
    requires credit == Actual(10, 10, Arrived(s, bank))
    ensures Process(s, time, bank) == Ok(s.(
      state := s.state.(actualUnbondedAmount := 0, lastProcessedBatch := b),
      histories := s.histories[b := s.histories[b].(withdrawRate := FromRatio(credit, 10), released := true)]))
  {
    hide Actual, CanRelease, RipeEnd, Arrived;
    TenExpected(s, b, time);
    var h, arrived := s.histories, Arrived(s, bank);
    assert RangeReleasable(h, b, b + 1, 10, arrived);
    assert ReleaseRange(h, b, b + 1, 10, arrived) == h[b := Release(h[b], 10, arrived)];
  }

  lemma TenExpected(s: Storage, b: nat, time: nat)
    requires TenRipe(s, b, time)
    ensures RoundEnd(s, time) == b + 1 && SumSeq(RoundExpected(s, time)) == 10 && Expected(s.histories[b]) == 10
  {
    var h := s.histories;
    assert Ripe(h, b, time) && !(b + 1 < s.batch.id && Ripe(h, b + 1, time));
    assert RipeEnd(h, b + 1, time, s.batch.id) == b + 1;
    assert ExpectedFrom(h, b, b) == [];
    assert ExpectedFrom(h, b, b + 1) == [] + [Expected(h[b])] == [10];
    SumSeqAppend([], 10);
  }

  /** What the lone waiting user of batch `b` can withdraw after such a round. */
  lemma TenPayout(w: World, b: nat, user: Addr, credit: nat)
    requires w.now >= w.hub.params.unbondingPeriod && TenRipe(w.hub, b, HistoricalTime(w))
    requires CanRelease(10, 10, Arrived(w.hub, w.bank)) && credit == Actual(10, 10, Arrived(w.hub, w.bank))
    requires WaitKey(user, b) in w.hub.waits && w.hub.waits[WaitKey(user, b)] == 10
    requires forall k :: k in w.hub.waits && k.user == user ==> k == WaitKey(user, b)
    ensures RoundSucceeds(w) && FinishedAmount(AfterRound(w), user) == credit
  {
    hide Process, Actual, CanRelease, FinishedAmount, Arrived;
    TenRound(w.hub, b, HistoricalTime(w), w.bank, credit);
    assert Times(10, FromRatio(credit, 10)) == credit;
    LoneEntryPays(AfterRound(w), WaitKey(user, b));
  }

  /** A user with a single entry is paid for that entry. */
  lemma LoneEntryPays(s: Storage, key: WaitKey)
    requires key in s.waits && IsReleased(s.histories, key.batch)
    requires forall k :: k in s.waits && k.user == key.user ==> k == key
    ensures FinishedAmount(s, key.user) == Times(s.waits[key], s.histories[key.batch].withdrawRate)
  {
    hide Times;
    var owed := OfUser(Payable(s.waits, s.histories), key.user);
    assert owed == map[key := Times(s.waits[key], s.histories[key.batch].withdrawRate)];
    SumRemove(owed, key);
    assert owed - {key} == map[];
  }

  /** The condition is needed: a run that unbonds the whole supply in one batch, of
      which nothing arrives. The round credits one coin and the payout fails. */
  lemma EmptyArrivalBlocksPayout(w: World, user: Addr, rng: nat -> nat)
    requires Initial(w) && w.supply == 10 && w.hub.state.totalBondAmount == 10 && w.bank == 0
    requires w.hub.params.erThreshold <= ONE
    ensures var p := w.hub.params;
      var v := Run(w, [Tick(p.epochPeriod + 1), UnbondCall(user, 10, rng), Tick(p.unbondingPeriod)]);
      Withdraw(v.hub, EnvOf(v), user) == Err(InsufficientHubBalance)
  {
    hide NextUnbond, Run, Process, FinishedAmount;
    var p := w.hub.params;
    InitialAtPar(w);
    var waiting := w.(now := w.now + p.epochPeriod + 1);
    UnbondTenCloses(waiting, user, rng);
    RunThree(w, Tick(p.epochPeriod + 1), UnbondCall(user, 10, rng), Tick(p.unbondingPeriod));
    var closed := NextUnbond(waiting, user, 10, rng);
    var v := closed.(now := closed.now + p.unbondingPeriod);
    LoneBatchWithoutArrival(10);
    TenPayout(v, 1, user, 1);
  }

  // -------------------------------------------------------------- run facts

  /** The life cycle of batches in every run. */
  lemma BatchLifeCycle(w: World, events: seq<Event>)
    requires Initial(w)
    ensures var s := Run(w, events).hub;
      && (forall b :: b in s.histories <==> 1 <= b < s.batch.id)
      && (forall b, c :: b in s.histories && c in s.histories && b < c ==> s.histories[b].time < s.histories[c].time)
      && (forall b :: b in s.histories ==> (s.histories[b].released <==> b <= s.state.lastProcessedBatch))
    ensures var v := Run(w, events);
      RoundSucceeds(v) ==> RoundReleases(v.hub, AfterRound(v), HistoricalTime(v))
  {
    hide Run, WaitsConserved, Solvent, Process, RoundReleases, BackedStorage;
    ReachableInv(w, events);
    var v := Run(w, events);
    FitsEverywhere(v.hub);
    if RoundSucceeds(v) {
      ProcessKeepsLifecycle(v.hub, HistoricalTime(v), v.bank);
    }
  }

  lemma FitsEverywhere(s: Storage)
    requires Lifecycle(s)
    ensures forall b :: b in s.histories ==> (s.histories[b].released <==> b <= s.state.lastProcessedBatch)
  {
  }

  /** The wait list books in every run. */
  lemma WaitListConservation(w: World, events: seq<Event>)
    requires Initial(w)
    ensures var v := Run(w, events);
      && BatchTotal(v.hub.waits, v.hub.batch.id) == v.hub.batch.requestedWithFee
      && (forall b :: b in v.hub.histories ==>
        BatchTotal(v.hub.waits, b) + BatchTotal(v.paidEntries, b) == v.hub.histories[b].amount)
      && (forall k :: k in v.paidEntries ==> IsReleased(v.hub.histories, k.batch) && k !in v.hub.waits)
  {
    hide Run, Solvent, BatchTotal, BackedStorage;
    ReachableInv(w, events);
    var v := Run(w, events);
    FitsEverywhere(v.hub);
  }

  /** In every state of every run every claim is backed at the stored rate if and only
      if something is bonded or nothing is claimed. */
  lemma BackingInvariant(w: World, events: seq<Event>)
    requires Initial(w)
    ensures var v := Run(w, events);
      v.hub.state.exchangeRate * (v.supply + v.hub.batch.requestedWithFee) <= v.hub.state.totalBondAmount * ONE <==>
      v.hub.state.totalBondAmount > 0 || v.supply + v.hub.batch.requestedWithFee == 0
  {
    hide Run, Books, Priced;
    ReachableInv(w, events);
    PricedIsBackedExactly(Run(w, events).hub, Run(w, events).supply);
  }

  /** The failing side is real: a run in which the only validator is slashed to
      nothing and a check resets the price to one, with nothing behind ten claims. */
  lemma SlashToZeroBreaksBacking(w: World)
    requires Initial(w) && w.supply == 10 && w.hub.state.totalBondAmount == 10
    ensures var slashed := [w.delegations[0].(amount := 0)];
      var v := Run(w, [ChangeDelegations(slashed), CheckSlashing]);
      && v.supply == 10 && v.hub.state.exchangeRate == ONE && v.hub.state.totalBondAmount == 0
      && !BackedStorage(v.hub, v.supply)
  {
    var slashed := [w.delegations[0].(amount := 0)];
    RunTwo(w, ChangeDelegations(slashed), CheckSlashing);
    assert slashed[..0] == [] && BondedIn(slashed, w.hub.params.coinDenom) == 0;
  }

  /** No wait list entry is ever paid twice: what a call pays was not paid before. */
  lemma NoEntryPaidTwice(w: World, events: seq<Event>, user: Addr)
    requires Initial(w)
    ensures var v := Run(w, events);
      RoundSucceeds(v) ==> Finished(AfterRound(v), user).Keys !! v.paidEntries.Keys
  {
    hide Finished, Lifecycle, WaitsConserved, Process, Run, Solvent;
    ReachableInv(w, events);
    var v := Run(w, events);
    if RoundSucceeds(v) {
      RoundBooks(v);
      PayConserves(AfterRound(v), user, 0, v.paidEntries);
    }
  }

  // ------------------------------------------------------- bonded is covered

  predicate SingleDenom(ds: seq<Delegation>, denom: string) {
    forall i :: 0 <= i < |ds| ==> ds[i].denom == denom
  }

  lemma {:induction false} BondedInIsTotal(ds: seq<Delegation>, denom: string)
    requires SingleDenom(ds, denom)
    ensures BondedIn(ds, denom) == Total(ds)
  {
    if |ds| == 0 {
    } else {
      BondedInIsTotal(ds[..|ds| - 1], denom);
    }
  }

  lemma SlashCovers(s: Storage, env: Env)
    requires SingleDenom(env.delegations, s.params.coinDenom) && |env.delegations| > 0
    ensures Slash(s, env).state.totalBondAmount <= Total(env.delegations)
  {
    BondedInIsTotal(env.delegations, s.params.coinDenom);
  }

  /** After a bond the recorded bond is covered by delegations exactly when the
      hub had delegations to check, or had recorded nothing. */
  lemma BondIsCovered(w: World, validator: string, funds: seq<Coin>)
    requires SingleDenom(w.delegations, w.hub.params.coinDenom)
    requires Bond(w.hub, EnvOf(w), validator, funds).Ok?
    ensures var after := NextBond(w, validator, funds);
      after.hub.state.totalBondAmount <= Total(after.delegations) <==>
      |w.delegations| > 0 || w.hub.state.totalBondAmount == 0
  {
    hide DecimalDivision, Rate, LessPegFee, FindPayment, BondedIn;
    DelegateTotal(w.delegations, validator, w.hub.params.coinDenom,
      Bond(w.hub, EnvOf(w), validator, funds).value.payment);
    if |w.delegations| > 0 {
      SlashCovers(w.hub, EnvOf(w));
    }
  }

  /** What the epoch close does to the recorded bond and to the delegations. */
  lemma CloseLowersBoth(s: Storage, env: Env, net: nat, rng: nat -> nat)
    requires DistinctValidators(env.delegations) && CloseIfDue(s, env, net, rng).Ok?
    ensures var done := CloseIfDue(s, env, net, rng).value;
      && done.storage.state.totalBondAmount <= s.state.totalBondAmount
      && Total(Undelegated(env.delegations, done.undelegations)) + s.state.totalBondAmount ==
         Total(env.delegations) + done.storage.state.totalBondAmount
  {
    hide Pick, WithinDelegations, UndelegationAmount;
    if env.now - s.state.lastUnbondedTime <= s.params.epochPeriod {
      AfterNothing(env.delegations);
    } else {
      PickSucceedsIff(env.delegations, UndelegationAmount(s), rng, 0);
      PickLowersTotal(env.delegations, UndelegationAmount(s), rng);
    }
  }

  lemma AfterNothing(ds: seq<Delegation>)
    ensures Total(Undelegated(ds, [])) == Total(ds)
  {
    assert After(ds, []) == ds;
  }

  /** The same for an unbond, whatever validators are drawn. */
  lemma UnbondIsCovered(w: World, user: Addr, amount: nat, rng: nat -> nat)
    requires DistinctValidators(w.delegations) && SingleDenom(w.delegations, w.hub.params.coinDenom)
    requires Unbond(w.hub, EnvOf(w), user, amount, rng).Ok?
    ensures var after := NextUnbond(w, user, amount, rng);
      after.hub.state.totalBondAmount <= Total(after.delegations) <==>
      |w.delegations| > 0 || w.hub.state.totalBondAmount == 0
  {
    hide Rate, LessPegFee, BondedIn, CloseIfDue, Undelegated, AddWait, Total;
    var checked := Slash(w.hub, EnvOf(w));
    var net := LessPegFee(checked, amount, Claims(checked, w.supply), checked.state.totalBondAmount).value;
    var booked := Request(checked, user, net, w.supply - amount);
    CloseLowersBoth(booked, EnvOf(w), net, rng);
    if |w.delegations| > 0 {
      SlashCovers(w.hub, EnvOf(w));
    } else {
      assert Total(w.delegations) == 0 by { EmptyTotal(w.delegations); }
    }
  }

  /** The slashing check at the head of a call leaves something bonded or finds
      nothing claimed. */
  predicate StillBonded(w: World) {
    Slash(w.hub, EnvOf(w)).state.totalBondAmount > 0 || Claims(w.hub, w.supply) == 0
  }

  /** That is exactly when the call goes on from a backed price. */
  lemma CheckedIsBacked(w: World)
    requires Inv(w)
    ensures BackedStorage(Slash(w.hub, EnvOf(w)), w.supply) <==> StillBonded(w)
  {
    hide Books, Priced, BackedStorage;
    SlashKeepsPrice(w.hub, EnvOf(w));
    PricedIsBackedExactly(Slash(w.hub, EnvOf(w)), w.supply);
  }

  lemma EmptyTotal(ds: seq<Delegation>)
    requires |ds| == 0
    ensures Total(ds) == 0
  {
  }

  /** While the slashing check leaves something bonded or nothing is claimed, the
      `expect` on the bonded amount cannot fail and, with delegations to undelegate
      from, neither can the draw from an empty list. */
  lemma UnbondNeverLacksBond(w: World, events: seq<Event>, user: Addr, amount: nat, rng: nat -> nat)
    requires Initial(w)
    ensures var v := Run(w, events); var r := Unbond(v.hub, EnvOf(v), user, amount, rng);
      StillBonded(v) ==>
        && r != Err(ExceedsBond)
        && (|v.delegations| > 0 && SingleDenom(v.delegations, v.hub.params.coinDenom) ==> r != Err(NotEnoughDelegated))
  {
    hide Run, Initial, Rate, BondedIn, AddWait, Total, Pick, Backed, Books, UndelegationAmount, Close;
    ReachableInv(w, events);
    var v := Run(w, events);
    var checked := Slash(v.hub, EnvOf(v));
    if !StillBonded(v) {
      return;
    }
    CheckedIsBacked(v);
    var less := LessPegFee(checked, amount, Claims(checked, v.supply), checked.state.totalBondAmount);
    if less.Ok? && amount <= v.supply {
      var booked := Request(checked, user, less.value, v.supply - amount);
      RequestKeepsBacking(checked, user, less.value, amount, v.supply);
      CloseIsCovered(booked, v.now, v.supply - amount);
      PickSucceedsIff(v.delegations, UndelegationAmount(booked), rng, 0);
      if |v.delegations| > 0 && SingleDenom(v.delegations, v.hub.params.coinDenom) {
        SlashCovers(v.hub, EnvOf(v));
      }
    }
  }

  /** On the other side nothing can close: over an empty bond an unbond that succeeds
      leaves the batch open, or there was nothing in it. */
  lemma EmptyBondClosesNothing(w: World, user: Addr, amount: nat, rng: nat -> nat)
    requires Slash(w.hub, EnvOf(w)).state.totalBondAmount == 0
    requires Unbond(w.hub, EnvOf(w), user, amount, rng).Ok?
    ensures var done := Unbond(w.hub, EnvOf(w), user, amount, rng).value;
      || done.storage.batch == w.hub.batch.(requestedWithFee := w.hub.batch.requestedWithFee + done.amountWithFee)
      || w.hub.batch.requestedWithFee + done.amountWithFee == 0
  {
    hide BondedIn, AddWait, Pick;
  }

  // -------------------------------------------------------------- the price

  /** A bond lowers the price by less than 10^-9, and not at all from a price with
      nine fractional digits. */
  lemma BondPriceImpact(w: World, events: seq<Event>, validator: string, funds: seq<Coin>)
    requires Initial(w)
    ensures var v := Run(w, events); var r := Bond(v.hub, EnvOf(v), validator, funds);
      r.Ok? && StillBonded(v) && Claims(v.hub, v.supply + r.value.minted) > 0 ==>
        var before := Slash(v.hub, EnvOf(v)).state.exchangeRate;
        var after := NextBond(v, validator, funds).hub.state.exchangeRate;
        && NineDigits(before) <= after
        && before < after + NINE_DIGITS
        && (before % NINE_DIGITS == 0 ==> before <= after)
  {
    hide Run, Initial, Books, Backed, BondedIn, FindPayment, Rate, DecimalDivision, Delegate, NineDigits;
    ReachableInv(w, events);
    var v := Run(w, events);
    var checked := Slash(v.hub, EnvOf(v));
    var r := Bond(v.hub, EnvOf(v), validator, funds);
    if r.Ok? && StillBonded(v) && Claims(v.hub, v.supply + r.value.minted) > 0 {
      CheckedIsBacked(v);
      PositivePayment(funds, v.hub.params.coinDenom);
      BondImpact(checked.state.exchangeRate, Claims(checked, v.supply), checked.state.totalBondAmount,
        r.value.payment, r.value.minted);
    }
  }

  /** A bond mints at least the exact quotient of payment and rate, less the peg fee;
      at the threshold or above there is no fee. */
  lemma BondMintsFairly(w: World, validator: string, funds: seq<Coin>)
    requires Bond(w.hub, EnvOf(w), validator, funds).Ok?
    ensures var done := Bond(w.hub, EnvOf(w), validator, funds).value;
      var checked := Slash(w.hub, EnvOf(w));
      var rate := checked.state.exchangeRate;
      && rate >= NINE_DIGITS
      && var mint := DecimalDivision(done.payment, rate).value;
        && done.payment * ONE / rate <= mint
        && mint - Times(mint, checked.params.pegRecoveryFee) <= done.minted <= mint
        && (rate >= checked.params.erThreshold ==> done.minted == mint)
        && NextBond(w, validator, funds).supply == w.supply + done.minted
        && NextBond(w, validator, funds).hub.state.totalBondAmount == checked.state.totalBondAmount + done.payment
  {
    hide Slash, FindPayment, DecimalDivision, Times, Rate, Delegate, LessPegFee;
    var done := Bond(w.hub, EnvOf(w), validator, funds).value;
    var checked := Slash(w.hub, EnvOf(w));
    DecimalDivisionClosedForm(done.payment, checked.state.exchangeRate);
    DecimalDivisionBounds(done.payment, checked.state.exchangeRate);
    var mint := DecimalDivision(done.payment, checked.state.exchangeRate).value;
    PegFeeIsExact(checked, mint, Claims(checked, w.supply + mint), checked.state.totalBondAmount + done.payment);
  }

  /** Below the threshold a bond leaves at least as many claims as bonded coins. */
  lemma BondNeverOvershootsPeg(w: World, validator: string, funds: seq<Coin>)
    requires Bond(w.hub, EnvOf(w), validator, funds).Ok?
    requires Slash(w.hub, EnvOf(w)).state.exchangeRate < w.hub.params.erThreshold
    ensures var after := NextBond(w, validator, funds);
      && after.hub.state.totalBondAmount <= Claims(after.hub, after.supply)
      && after.hub.state.exchangeRate <= ONE
  {
    hide BondedIn, FindPayment, Rate, DecimalDivision, Delegate, Times;
    var after := NextBond(w, validator, funds);
    RateAtMostOne(after.hub.state.totalBondAmount, Claims(after.hub, after.supply));
  }

  /** An unbond never lowers the price left by the slashing check; below the
      threshold the fee it keeps leaves at least as many claims as bonded coins, so
      the price is at most one. */
  lemma UnbondPegRecovery(w: World, events: seq<Event>, user: Addr, amount: nat, rng: nat -> nat)
    requires Initial(w) && amount > 0
    ensures var v := Run(w, events); var r := Unbond(v.hub, EnvOf(v), user, amount, rng);
      var checked := Slash(v.hub, EnvOf(v));
      r.Ok? && checked.state.totalBondAmount > 0 ==>
        var before, after := checked.state.exchangeRate, NextUnbond(v, user, amount, rng).hub.state.exchangeRate;
        && before <= after
        && (before < v.hub.params.erThreshold ==>
          && checked.state.totalBondAmount <= Claims(v.hub, v.supply) - (amount - r.value.amountWithFee)
          && after <= ONE)
  {
    hide Run, Initial, Books, Backed, BondedIn, Rate, Pick, UndelegationAmount, AddWait, Undelegated, Times;
    ReachableInv(w, events);
    var v := Run(w, events);
    var checked := Slash(v.hub, EnvOf(v));
    var r := Unbond(v.hub, EnvOf(v), user, amount, rng);
    var claims, bond := Claims(checked, v.supply), checked.state.totalBondAmount;
    if r.Ok? && bond > 0 {
      CheckedIsBacked(v);
      var net := LessPegFee(checked, amount, claims, bond).value;
      assert r.value.amountWithFee == net;
      assert NextUnbond(v, user, amount, rng).hub.state.exchangeRate == Rate(bond, claims - (amount - net));
      FewerClaimsRaiseRate(checked.state.exchangeRate, claims, bond, amount - net);
      if checked.state.exchangeRate < v.hub.params.erThreshold {
        RateAtMostOne(bond, claims - (amount - net));
      }
    }
  }
}
