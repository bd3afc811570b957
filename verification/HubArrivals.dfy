/** Which coins a release round counts. A withdrawal that pays stores the whole bank
    balance behind it, so every coin is counted by the first payout after its arrival,
    whether or not the batch it came for is ripe by then. */
module HubArrivals {
  import opened Decimals
  import opened HubTypes
  import opened Apportionment
  import opened WithdrawRate
  import opened Hub
  import opened HubInvariant
  import opened HubRuns
  import opened HubTheorems

  ghost predicate Pays(w: World, e: Event) {
    e.WithdrawCall? && Withdraw(w.hub, EnvOf(w), e.user).Ok?
  }

  /** The coins the next round of `w` would count. */
  function Uncounted(w: World): nat {
    Arrived(w.hub, w.bank)
  }

  lemma UncountedIsNew(w: World)
    requires Inv(w)
    ensures Uncounted(w) == w.bank - w.hub.state.prevHubBalance
  {
    hide Owed, WaitsConserved, Priced;
  }

  /** A payout leaves nothing uncounted; every other event leaves what was uncounted
      and adds what arrives. */
  lemma NextUncounted(w: World, e: Event)
    requires Inv(w)
    ensures Uncounted(Next(w, e)) == if Pays(w, e) then 0 else Uncounted(w) + Next(w, e).arrived - w.arrived
    ensures Pays(w, e) ==> Next(w, e).arrived == w.arrived
    ensures w.arrived <= Next(w, e).arrived
  {
    hide Inv, Arrived, Slash, Bond, Unbond, Withdraw, Process, Excess, AfterRound;
    NextInv(w, e);
    UncountedIsNew(w);
    UncountedIsNew(Next(w, e));
    PreviousBalance(w, e);
  }

  lemma PreviousBalance(w: World, e: Event)
    ensures var prev, after := w.hub.state.prevHubBalance, Next(w, e).hub.state.prevHubBalance;
      after == if Pays(w, e) then Next(w, e).bank else prev
    ensures e.Arrive? || Pays(w, e) || (Next(w, e).bank == w.bank && Next(w, e).arrived == w.arrived)
    ensures Pays(w, e) ==> Next(w, e).arrived == w.arrived
  {
    hide FindPayment, LessPegFee, BondedIn, FinishedAmount, Process, Excess, Finished;
  }

  /** The coins counted by the payouts of a run. */
  ghost function Counted(w: World, events: seq<Event>): nat
    decreases |events|
  {
    if |events| == 0 then 0
    else (if Pays(w, events[0]) then Uncounted(w) else 0) + Counted(Next(w, events[0]), events[1..])
  }

  lemma {:induction false} RunCounts(w: World, events: seq<Event>)
    requires Inv(w)
    ensures Counted(w, events) + Uncounted(Run(w, events)) == Uncounted(w) + Run(w, events).arrived - w.arrived
    decreases |events|
  {
    hide Inv, Next, Pays, Uncounted;
    if |events| == 0 {
    } else {
      NextInv(w, events[0]);
      NextUncounted(w, events[0]);
      RunCounts(Next(w, events[0]), events[1..]);
    }
  }

  /** In every run every coin is counted exactly once: what payouts have counted and
      what the next round would count is what arrived. */
  lemma CoinsCountedOnce(w: World, events: seq<Event>)
    requires Initial(w)
    ensures Counted(w, events) + Arrived(Run(w, events).hub, Run(w, events).bank) == Run(w, events).arrived
  {
    hide Run, Inv, Counted;
    InitialInv(w);
    RunCounts(w, events);
  }

  // ------------------------------------------- coins that come for a batch

  ghost predicate PaysIn(w: World, events: seq<Event>)
    decreases |events|
  {
    |events| > 0 && (Pays(w, events[0]) || PaysIn(Next(w, events[0]), events[1..]))
  }

  /** No withdrawal of the run pays once a coin has arrived. */
  ghost predicate NoPayoutAfterArrival(w: World, events: seq<Event>)
    decreases |events|
  {
    |events| > 0 ==>
      && (events[0].Arrive? && events[0].amount > 0 ==> !PaysIn(Next(w, events[0]), events[1..]))
      && NoPayoutAfterArrival(Next(w, events[0]), events[1..])
  }

  /** The coins that arrive in the run and are counted before its end. */
  ghost function Missed(w: World, events: seq<Event>): nat
    decreases |events|
  {
    if |events| == 0 then 0
    else
      var e, v := events[0], Next(w, events[0]);
      (if e.Arrive? && PaysIn(v, events[1..]) then e.amount else 0) + Missed(v, events[1..])
  }

  lemma ArrivalsAreEvents(w: World, e: Event)
    ensures Next(w, e).arrived == w.arrived + (if e.Arrive? then e.amount else 0)
  {
    hide Slash, Bond, Unbond, Withdraw, Process, Excess, AfterRound;
  }

  lemma {:induction false} RunMisses(w: World, events: seq<Event>)
    requires Inv(w)
    ensures Uncounted(Run(w, events)) + Missed(w, events) ==
      (if PaysIn(w, events) then 0 else Uncounted(w)) + Run(w, events).arrived - w.arrived
    ensures Missed(w, events) == 0 <==> NoPayoutAfterArrival(w, events)
    decreases |events|
  {
    hide Inv, Next, Pays, Uncounted;
    if |events| == 0 {
    } else {
      NextInv(w, events[0]);
      NextUncounted(w, events[0]);
      ArrivalsAreEvents(w, events[0]);
      RunMisses(Next(w, events[0]), events[1..]);
    }
  }

  /** Whenever a batch closed and whatever happens until it is released: the round that
      releases it counts all coins that arrived in between if and only if nobody was paid
      after one of them arrived. Otherwise it lacks exactly the coins counted before. */
  lemma ArrivalsCountedExactly(w: World, before: seq<Event>, events: seq<Event>)
    requires Initial(w)
    ensures var closed := Run(w, before); var v := Run(closed, events);
      && (v.arrived - closed.arrived <= Arrived(v.hub, v.bank) <==> NoPayoutAfterArrival(closed, events))
      && (PaysIn(closed, events) ==> Arrived(v.hub, v.bank) + Missed(closed, events) == v.arrived - closed.arrived)
  {
    hide Run, Inv, Missed, PaysIn, NoPayoutAfterArrival, Arrived;
    ReachableInv(w, before);
    RunMisses(Run(w, before), events);
    NothingMissed(Run(w, before), events);
  }

  lemma {:induction false} NothingMissed(w: World, events: seq<Event>)
    ensures !PaysIn(w, events) ==> Missed(w, events) == 0
    decreases |events|
  {
    hide Next, Pays;
    if |events| > 0 {
      NothingMissed(Next(w, events[0]), events[1..]);
    }
  }

  // ------------------------------------------------- a payout that comes early

  /** Two batches of ten tokens, closed one epoch after the other. */
  predicate TwoBatches(w: World, a: Addr, b: Addr) {
    var h := w.hub.histories;
    && h.Keys == {1, 2} && w.hub.batch.id == 3 && a != b
    && h[1] == UnbondHistory(1, h[1].time, 10, ONE, ONE, false)
    && h[2] == UnbondHistory(2, w.now, 10, ONE, ONE, false)
    && h[1].time + w.hub.params.epochPeriod + 1 == w.now
    && w.hub.waits == map[WaitKey(a, 1) := 10, WaitKey(b, 2) := 10]
    && w.hub.state.lastProcessedBatch == w.hub.state.actualUnbondedAmount == w.hub.state.prevHubBalance == 0
    && w.bank == 0
  }

  function Closing(w: World, a: Addr, b: Addr, rng: nat -> nat): seq<Event> {
    var epoch := Tick(w.hub.params.epochPeriod + 1);
    [epoch, UnbondCall(a, 10, rng), epoch, UnbondCall(b, 10, rng)]
  }

  lemma ClosingClosesTwo(w: World, a: Addr, b: Addr, rng: nat -> nat)
    requires Initial(w) && w.supply == 20 && w.hub.state.totalBondAmount == 20 && w.bank == 0 && a != b
    requires w.hub.params.erThreshold <= ONE
    ensures var closed := Run(w, Closing(w, a, b, rng));
      TwoBatches(closed, a, b) && closed.hub.params == w.hub.params
  {
    hide NextUnbond, Run;
    InitialAtPar(w);
    var epoch := w.hub.params.epochPeriod + 1;
    var one := w.(now := w.now + epoch);
    UnbondTenCloses(one, a, rng);
    var first := NextUnbond(one, a, 10, rng);
    var two := first.(now := first.now + epoch);
    UnbondTenCloses(two, b, rng);
    RunFour(w, Tick(epoch), UnbondCall(a, 10, rng), Tick(epoch), UnbondCall(b, 10, rng));
  }

  lemma RunFour(w: World, a: Event, b: Event, c: Event, d: Event)
    ensures Run(w, [a, b, c, d]) == Next(Next(Next(Next(w, a), b), c), d)
  {
    hide Next;
    assert [a, b, c, d][1..] == [b, c, d];
    RunThree(Next(w, a), b, c, d);
  }

  /** Coins for both batches arrive, the first user withdraws before the second batch
      is ripe, and then that one ripens too. */
  function Waiting(p: Params, a: Addr): seq<Event>
    requires p.unbondingPeriod > p.epochPeriod
  {
    [Arrive(20), Tick(p.unbondingPeriod - p.epochPeriod - 1), WithdrawCall(a), Tick(p.epochPeriod + 1)]
  }

  /** The promise that coins which arrive for a batch are counted when it is released is
      not kept: twenty coins arrive for two batches of ten, the first user is paid
      nineteen of them, and the second is credited one of the ten. */
  lemma EarlyPayoutTakesLaterCoins(w: World, a: Addr, b: Addr, rng: nat -> nat)
    requires Initial(w) && w.supply == 20 && w.hub.state.totalBondAmount == 20 && w.bank == 0 && a != b
    requires w.hub.params.erThreshold <= ONE && w.hub.params.unbondingPeriod > w.hub.params.epochPeriod
    ensures var closed := Run(w, Closing(w, a, b, rng)); var v := Run(closed, Waiting(w.hub.params, a));
      && v.arrived - closed.arrived == 20 && Arrived(v.hub, v.bank) == 0 && v.paidOut - closed.paidOut == 19
      && RoundSucceeds(v) && FinishedAmount(AfterRound(v), b) == 1
  {
    hide Run, NextWithdraw, FinishedAmount, Process;
    ClosingClosesTwo(w, a, b, rng);
    var p := w.hub.params;
    var closed := Run(w, Closing(w, a, b, rng));
    var ripe := closed.(
      bank := 20, arrived := closed.arrived + 20, now := closed.now + (p.unbondingPeriod - p.epochPeriod - 1));
    FirstIsPaid(ripe, a, b);
    RunFour(closed, Arrive(20), Tick(p.unbondingPeriod - p.epochPeriod - 1), WithdrawCall(a), Tick(p.epochPeriod + 1));
    var v := NextWithdraw(ripe, a);
    LoneBatchWithoutArrival(10);
    TenPayout(v.(now := v.now + p.epochPeriod + 1), 2, b, 1);
  }

  lemma FirstIsPaid(w: World, a: Addr, b: Addr)
    requires w.bank == 20 && w.hub.params.unbondingPeriod > w.hub.params.epochPeriod
    requires var wait := w.hub.params.unbondingPeriod - w.hub.params.epochPeriod - 1;
      w.now >= wait && TwoBatches(w.(bank := 0, now := w.now - wait), a, b)
    ensures var v := NextWithdraw(w, a);
      && v.bank == 1 && v.hub.state == w.hub.state.(lastProcessedBatch := 1, prevHubBalance := 1)
      && v.now == w.now && v.arrived == w.arrived && v.paidOut == w.paidOut + 19 && v.hub.params == w.hub.params
      && v.hub.waits == map[WaitKey(b, 2) := 10] && v.hub.batch == w.hub.batch
      && v.hub.histories.Keys == {1, 2} && v.hub.histories[2] == w.hub.histories[2]
  {
    hide Process, FinishedAmount, Excess, Actual, CanRelease, Finished;
    TenSurplus();
    TenPayout(w, 1, a, 19);
    TenRound(w.hub, 1, HistoricalTime(w), 20, 19);
    OneLeft(AfterRound(w), a, b);
  }

  lemma TenSurplus()
    ensures CanRelease(10, 10, 20) && Actual(10, 10, 20) == 19
  {
  }

  lemma OneLeft(s: Storage, a: Addr, b: Addr)
    requires s.waits == map[WaitKey(a, 1) := 10, WaitKey(b, 2) := 10] && a != b && IsReleased(s.histories, 1)
    ensures s.waits - Finished(s, a).Keys == map[WaitKey(b, 2) := 10]
  {
  }
}
