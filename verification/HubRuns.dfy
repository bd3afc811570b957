/** Whole runs of the hub: every sequence of calls interleaved with whatever the
    chain does. A failed call changes nothing. */
module HubRuns {
  import opened Decimals
  import opened HubTypes
  import opened Undelegations
  import opened ExchangeRate
  import opened WithdrawRate
  import opened Hub
  import opened HubInvariant

  /** The hub together with its surroundings and the books kept about the run:
      coins arrived and paid out, the wait list entries paid, and by how much release
      rounds credited more than arrived. */
  datatype World = World(
    hub: Storage,
    supply: nat,
    delegations: seq<Delegation>,
    bank: nat,
    now: nat,
    arrived: nat,
    paidOut: nat,
    paidEntries: Waits,
    overcredit: nat)

  datatype Event =
    | Tick(seconds: nat)
    | Arrive(amount: nat)
    | ChangeDelegations(delegations: seq<Delegation>)
    | BurnDirectly(amount: nat)
    | UpdateParams(params: Params)
    | UpdateWhitelist(validators: set<string>)
    | CheckSlashing
    | BondCall(validator: string, funds: seq<Coin>)
    | UnbondCall(user: Addr, amount: nat, rng: nat -> nat)
    | WithdrawCall(user: Addr)

  function EnvOf(w: World): Env {
    Env(w.now, w.supply, w.delegations, w.bank)
  }

  /** The chain's effect of a Delegate message. */
  function Delegate(ds: seq<Delegation>, validator: string, denom: string, amount: nat): seq<Delegation> {
    if |ds| == 0 then [Delegation(validator, denom, amount)]
    else if ds[|ds| - 1].validator == validator then
      ds[..|ds| - 1] + [ds[|ds| - 1].(amount := ds[|ds| - 1].amount + amount)]
    else Delegate(ds[..|ds| - 1], validator, denom, amount) + [ds[|ds| - 1]]
  }

  function Undelegated(ds: seq<Delegation>, ms: seq<Undelegate>): seq<Delegation> {
    if WithinDelegations(ds, ms) then After(ds, ms) else ds
  }

  /** By how much the round a withdrawal triggers credits more than arrived. */
  function Excess(w: World): nat {
    if w.now < w.hub.params.unbondingPeriod then 0
    else
      var credit := RoundCredit(w.hub, w.now - w.hub.params.unbondingPeriod, w.bank);
      var arrived := Arrived(w.hub, w.bank);
      if credit <= arrived then 0 else credit - arrived
  }

  ghost function Next(w: World, e: Event): World {
    match e
    case Tick(seconds) => w.(now := w.now + seconds)
    case Arrive(amount) => w.(bank := w.bank + amount, arrived := w.arrived + amount)
    case ChangeDelegations(ds) => if DistinctValidators(ds) then w.(delegations := ds) else w
    case BurnDirectly(amount) => if amount <= w.supply then w.(supply := w.supply - amount) else w
    case UpdateParams(p) => w.(hub := w.hub.(params := p.(coinDenom := w.hub.params.coinDenom)))
    case UpdateWhitelist(validators) => w.(hub := w.hub.(whitelist := validators))
    case CheckSlashing => w.(hub := Slash(w.hub, EnvOf(w)))
    case BondCall(validator, funds) => NextBond(w, validator, funds)
    case UnbondCall(user, amount, rng) => NextUnbond(w, user, amount, rng)
    case WithdrawCall(user) => NextWithdraw(w, user)
  }

  function NextBond(w: World, validator: string, funds: seq<Coin>): World {
    match Bond(w.hub, EnvOf(w), validator, funds)
    case Err(_) => w
    case Ok(done) => w.(
      hub := done.storage,
      supply := w.supply + done.minted,
      delegations := Delegate(w.delegations, validator, w.hub.params.coinDenom, done.payment))
  }

  function NextUnbond(w: World, user: Addr, amount: nat, rng: nat -> nat): World {
    match Unbond(w.hub, EnvOf(w), user, amount, rng)
    case Err(_) => w
    case Ok(done) => w.(
      hub := done.storage,
      supply := if amount <= w.supply then w.supply - amount else 0,
      delegations := Undelegated(w.delegations, done.undelegations))
  }

  /** The storage between the release round and the payout. */
  function AfterRound(w: World): Storage {
    if w.now < w.hub.params.unbondingPeriod then w.hub
    else match Process(w.hub, w.now - w.hub.params.unbondingPeriod, w.bank)
      case Err(_) => w.hub
      case Ok(released) => released
  }

  ghost function NextWithdraw(w: World, user: Addr): World {
    match Withdraw(w.hub, EnvOf(w), user)
    case Err(_) => w
    case Ok(done) => w.(
      hub := done.storage,
      bank := if done.amount <= w.bank then w.bank - done.amount else 0,
      paidOut := w.paidOut + done.amount,
      paidEntries := w.paidEntries + Finished(AfterRound(w), user),
      overcredit := w.overcredit + Excess(w))
  }

  ghost function Run(w: World, events: seq<Event>): World
    decreases |events|
  {
    if |events| == 0 then w else Run(Next(w, events[0]), events[1..])
  }

  /** Instantiation with a positive deposit and a token supply it covers. */
  ghost predicate Initial(w: World) {
    exists validator: string, deposit: nat ::
      && 0 < deposit && w.supply <= deposit
      && w.hub == InitialStorage(w.hub.params, validator, deposit, w.now)
      && w.delegations == [Delegation(validator, w.hub.params.coinDenom, deposit)]
      && w.bank == w.arrived && w.paidOut == 0 && w.paidEntries == map[] && w.overcredit == 0
  }

  // -------------------------------------------------------------- invariant

  /** The debt for released batches is within the stored balance, up to the
      excess of past rounds, and every coin is accounted for. */
  ghost predicate Solvent(w: World) {
    && Owed(w.hub.waits, w.hub.histories) <= w.hub.state.prevHubBalance + w.overcredit
    && w.hub.state.prevHubBalance <= w.bank
    && w.bank + w.paidOut == w.arrived
  }

  /** Batches, wait list and balances. */
  ghost predicate Books(w: World) {
    && w.hub.batch.id >= 1
    && Lifecycle(w.hub)
    && w.hub.state.lastUnbondedTime <= w.now
    && WaitsConserved(w.hub, w.paidEntries)
    && Solvent(w)
  }

  ghost predicate Inv(w: World) {
    && Books(w)
    && Priced(w.hub, w.supply)
    && DistinctValidators(w.delegations)
  }

  /** Any deposit that covers the initial supply starts a run. */
  lemma InitialExists(params: Params, validator: string, deposit: nat, supply: nat, now: nat, coins: nat)
    returns (w: World)
    requires 0 < deposit && supply <= deposit
    ensures Initial(w) && w.supply == supply && w.hub == InitialStorage(params, validator, deposit, now)
    ensures w.now == now && w.bank == w.arrived == coins && w.paidOut == 0 && w.paidEntries == map[]
    ensures w.overcredit == 0
  {
    w := World(InitialStorage(params, validator, deposit, now), supply,
      [Delegation(validator, params.coinDenom, deposit)], coins, now, coins, 0, map[], 0);
    assert w.hub == InitialStorage(w.hub.params, validator, deposit, w.now);
  }

  lemma InitialInv(w: World)
    requires Initial(w)
    ensures Inv(w)
  {
    hide Owed, BatchTotal;
    EmptyBatch(w.hub.waits, 1);
    NothingOwed(w.hub.waits, w.hub.histories);
  }

  lemma NothingOwed(waits: Waits, h: Histories)
    requires waits == map[]
    ensures Owed(waits, h) == 0
  {
  }

  /** Calls that leave the wait list, histories and balances alone keep the books. */
  lemma SameBooks(w: World, after: World)
    requires Books(w)
    requires after.hub.waits == w.hub.waits && after.hub.histories == w.hub.histories
    requires after.hub.batch == w.hub.batch
    requires after.hub.state == w.hub.state.(
      exchangeRate := after.hub.state.exchangeRate, totalBondAmount := after.hub.state.totalBondAmount)
    requires w.bank - w.arrived == after.bank - after.arrived && w.bank <= after.bank
    requires after.paidOut == w.paidOut && after.paidEntries == w.paidEntries
    requires after.overcredit == w.overcredit && w.now <= after.now
    ensures Books(after)
  {
    hide Owed, BatchTotal;
    SameBatchesSameLifecycle(w.hub, after.hub);
  }

  lemma SlashInv(w: World)
    requires Inv(w)
    ensures Inv(w.(hub := Slash(w.hub, EnvOf(w))))
  {
    hide Books, Priced, BondedIn, Rate;
    SameBooks(w, w.(hub := Slash(w.hub, EnvOf(w))));
    SlashKeepsPrice(w.hub, EnvOf(w));
  }

  lemma BurnInv(w: World, amount: nat)
    requires Inv(w)
    ensures Inv(Next(w, BurnDirectly(amount)))
  {
    hide Books, Backed;
    if amount <= w.supply {
      SameBooks(w, w.(supply := w.supply - amount));
      if w.hub.state.totalBondAmount > 0 {
        BurnKeepsBacking(w.hub.state.exchangeRate, Claims(w.hub, w.supply), w.hub.state.totalBondAmount, amount);
      }
    }
  }

  lemma {:induction false} DelegateTotal(ds: seq<Delegation>, validator: string, denom: string, amount: nat)
    ensures Total(Delegate(ds, validator, denom, amount)) == Total(ds) + amount
  {
    if |ds| == 0 {
    } else {
      var n := |ds| - 1;
      DelegateTotal(ds[..n], validator, denom, amount);
      var after := Delegate(ds, validator, denom, amount);
      assert after[..|after| - 1] ==
        if ds[n].validator == validator then ds[..n] else Delegate(ds[..n], validator, denom, amount);
    }
  }

  /** What is delegated to one validator. */
  function DelegatedTo(ds: seq<Delegation>, validator: string): nat {
    if |ds| == 0 then 0
    else
      var last := ds[|ds| - 1];
      DelegatedTo(ds[..|ds| - 1], validator) + (if last.validator == validator then last.amount else 0)
  }

  /** A Delegate message raises the delegation to its validator and no other. */
  lemma {:induction false} DelegateRaisesOne(
      ds: seq<Delegation>, validator: string, denom: string, amount: nat, v: string)
    ensures DelegatedTo(Delegate(ds, validator, denom, amount), v) ==
      DelegatedTo(ds, v) + (if v == validator then amount else 0)
  {
    if |ds| == 0 {
    } else {
      var n := |ds| - 1;
      DelegateRaisesOne(ds[..n], validator, denom, amount, v);
      var after := Delegate(ds, validator, denom, amount);
      assert after[..|after| - 1] ==
        if ds[n].validator == validator then ds[..n] else Delegate(ds[..n], validator, denom, amount);
    }
  }

  lemma {:induction false} DelegateDistinct(ds: seq<Delegation>, validator: string, denom: string, amount: nat)
    requires DistinctValidators(ds)
    ensures DistinctValidators(Delegate(ds, validator, denom, amount))
    ensures forall d :: d in Delegate(ds, validator, denom, amount) ==>
      d.validator == validator || exists c :: c in ds && c.validator == d.validator
  {
    if |ds| == 0 {
    } else {
      var n := |ds| - 1;
      assert forall c :: c in ds[..n] ==> c in ds;
      if ds[n].validator != validator {
        DelegateDistinct(ds[..n], validator, denom, amount);
        AppendDistinct(Delegate(ds[..n], validator, denom, amount), ds, validator);
      }
    }
  }

  lemma AppendDistinct(front: seq<Delegation>, ds: seq<Delegation>, validator: string)
    requires |ds| > 0 && DistinctValidators(front) && DistinctValidators(ds) && ds[|ds| - 1].validator != validator
    requires forall d :: d in front ==>
      d.validator == validator || exists c :: c in ds[..|ds| - 1] && c.validator == d.validator
    ensures DistinctValidators(front + [ds[|ds| - 1]])
  {
  }

  lemma PositivePayment(funds: seq<Coin>, denom: string)
    ensures FindPayment(funds, denom).Some? ==> FindPayment(funds, denom).value > 0
  {
  }

  lemma BondInv(w: World, validator: string, funds: seq<Coin>)
    requires Inv(w)
    ensures Inv(NextBond(w, validator, funds))
  {
    hide Books, Backed, BondedIn, Rate, DecimalDivision, Delegate, LessPegFee, FindPayment, DistinctValidators;
    var r := Bond(w.hub, EnvOf(w), validator, funds);
    if r.Ok? {
      PositivePayment(funds, w.hub.params.coinDenom);
      SameBooks(w, NextBond(w, validator, funds));
      DepositIsBacked(Slash(w.hub, EnvOf(w)), r.value.payment, r.value.minted, w.supply);
      DelegateDistinct(w.delegations, validator, w.hub.params.coinDenom, r.value.payment);
    }
  }

  // ----------------------------------------------------------------- unbond

  lemma OpenWaitOwesNothing(w: Waits, h: Histories, key: WaitKey, amount: nat)
    requires key.batch !in h
    ensures Owed(w[key := amount], h) == Owed(w, h)
  {
    hide Times;
    assert Payable(w[key := amount], h) == Payable(w, h);
  }

  lemma AddWaitOwes(s: Storage, user: Addr, amount: nat)
    requires Lifecycle(s)
    ensures Owed(AddWait(s.waits, user, s.batch.id, amount), s.histories) == Owed(s.waits, s.histories)
  {
    hide HistoryFits, Owed;
    var key := WaitKey(user, s.batch.id);
    OpenWaitOwesNothing(s.waits, s.histories, key, AddWait(s.waits, user, s.batch.id, amount)[key]);
  }

  lemma UnreleasedOwesNothing(w: Waits, h: Histories, b: nat, history: UnbondHistory)
    requires b !in h && !history.released
    ensures Owed(w, h[b := history]) == Owed(w, h)
  {
    hide Times;
    assert Payable(w, h[b := history]) == Payable(w, h);
  }

  lemma CloseOwes(s: Storage, now: nat)
    requires Lifecycle(s) && UndelegationAmount(s) <= s.state.totalBondAmount
    ensures Owed(Close(s, now).waits, Close(s, now).histories) == Owed(s.waits, s.histories)
  {
    hide HistoryFits, Times, Owed;
    UnreleasedOwesNothing(s.waits, s.histories, s.batch.id, Close(s, now).histories[s.batch.id]);
  }

  lemma RequestBooks(w: World, user: Addr, net: nat, amount: nat)
    requires Books(w) && net <= amount <= w.supply
    ensures Books(w.(hub := Request(w.hub, user, net, w.supply - amount), supply := w.supply - amount))
  {
    hide WaitsConserved, Owed, AddWait, Rate;
    RequestConserves(w.hub, user, net, w.supply - amount, w.paidEntries);
    SameBatchesSameLifecycle(w.hub, Request(w.hub, user, net, w.supply - amount));
    AddWaitOwes(w.hub, user, net);
  }

  lemma RequestInv(w: World, user: Addr, net: nat, amount: nat)
    requires Inv(w) && net <= amount <= w.supply
    ensures Inv(w.(hub := Request(w.hub, user, net, w.supply - amount), supply := w.supply - amount))
  {
    hide Books, Priced, Request;
    RequestBooks(w, user, net, amount);
    RequestKeepsPrice(w.hub, user, net, amount, w.supply);
  }

  lemma CloseBooks(w: World)
    requires Books(w) && UndelegationAmount(w.hub) <= w.hub.state.totalBondAmount
    requires w.now > w.hub.state.lastUnbondedTime
    ensures Books(w.(hub := Close(w.hub, w.now)))
  {
    hide WaitsConserved, Owed, Lifecycle, Times;
    CloseKeepsLifecycle(w.hub, w.now);
    CloseConserves(w.hub, w.now, w.paidEntries);
    CloseOwes(w.hub, w.now);
  }

  lemma CloseInv(w: World)
    requires Inv(w) && UndelegationAmount(w.hub) <= w.hub.state.totalBondAmount
    requires w.now > w.hub.state.lastUnbondedTime
    ensures Inv(w.(hub := Close(w.hub, w.now)))
  {
    hide Books, Priced, Close, UndelegationAmount;
    CloseBooks(w);
    CloseKeepsPrice(w.hub, w.now, w.supply);
  }

  lemma CloseIfDueInv(w: World, net: nat, rng: nat -> nat)
    requires Inv(w)
    ensures var r := CloseIfDue(w.hub, EnvOf(w), net, rng);
      r.Ok? ==> Inv(w.(hub := r.value.storage, delegations := Undelegated(w.delegations, r.value.undelegations)))
  {
    hide Books, Priced, Close, UndelegationAmount, Pick;
    var r := CloseIfDue(w.hub, EnvOf(w), net, rng);
    if r.Ok? {
      if w.now - w.hub.state.lastUnbondedTime > w.hub.params.epochPeriod {
        CloseInv(w);
      }
      var closed := w.(hub := r.value.storage);
      SameBooks(closed, closed.(delegations := Undelegated(w.delegations, r.value.undelegations)));
    }
  }

  lemma UnbondInv(w: World, user: Addr, amount: nat, rng: nat -> nat)
    requires Inv(w)
    ensures Inv(NextUnbond(w, user, amount, rng))
  {
    hide Inv, Slash, Request, CloseIfDue, Undelegated;
    var r := Unbond(w.hub, EnvOf(w), user, amount, rng);
    if r.Ok? {
      var checked := w.(hub := Slash(w.hub, EnvOf(w)));
      SlashInv(w);
      var bond := checked.hub.state.totalBondAmount;
      var net := LessPegFee(checked.hub, amount, Claims(checked.hub, w.supply), bond).value;
      RequestInv(checked, user, net, amount);
      var booked := checked.(hub := Request(checked.hub, user, net, w.supply - amount), supply := w.supply - amount);
      assert r == CloseIfDue(booked.hub, EnvOf(w), net, rng);
      SupplyIsNotReadOnClose(booked.hub, EnvOf(w), EnvOf(booked), net, rng);
      CloseIfDueInv(booked, net, rng);
    }
  }

  lemma SupplyIsNotReadOnClose(s: Storage, a: Env, b: Env, net: nat, rng: nat -> nat)
    requires a == b.(supply := a.supply)
    ensures CloseIfDue(s, a, net, rng) == CloseIfDue(s, b, net, rng)
  {
  }

  // --------------------------------------------------------------- withdraw

  function HistoricalTime(w: World): nat
    requires w.now >= w.hub.params.unbondingPeriod
  {
    w.now - w.hub.params.unbondingPeriod
  }

  predicate RoundSucceeds(w: World) {
    w.now >= w.hub.params.unbondingPeriod && Process(w.hub, HistoricalTime(w), w.bank).Ok?
  }

  lemma WaitsWithinAmounts(s: Storage, paid: Waits)
    requires WaitsConserved(s, paid)
    ensures forall b :: b in s.histories ==> BatchTotal(s.waits, b) <= s.histories[b].amount
  {
    hide BatchTotal;
  }

  /** After the release round, and before anything is paid, the debt is within
      the bank balance up to the accumulated excess. */
  lemma RoundSolvency(w: World)
    requires Books(w) && RoundSucceeds(w)
    ensures Owed(w.hub.waits, AfterRound(w).histories) <= w.bank + w.overcredit + Excess(w)
  {
    hide Owed, Process, RoundCredit, WaitsConserved;
    WaitsWithinAmounts(w.hub, w.paidEntries);
    ProcessOwes(w.hub, HistoricalTime(w), w.bank);
  }

  /** The storage between round and payout differs only in histories and progress. */
  ghost predicate DiffersInHistories(s: Storage, after: Storage) {
    after == s.(
      histories := after.histories, state := s.state.(lastProcessedBatch := after.state.lastProcessedBatch))
  }

  lemma ConservedAfterRound(s: Storage, after: Storage, time: nat, paid: Waits)
    requires Lifecycle(s) && WaitsConserved(s, paid)
    requires Lifecycle(after) && RoundReleases(s, after, time)
    ensures WaitsConserved(after, paid)
  {
    hide BatchTotal;
    forall k | k in paid
      ensures k.batch <= after.state.lastProcessedBatch
    {
      assert HistoryFits(s, k.batch) && HistoryFits(after, k.batch);
    }
  }

  lemma RoundBooks(w: World)
    requires Books(w) && RoundSucceeds(w)
    ensures Lifecycle(AfterRound(w)) && WaitsConserved(AfterRound(w), w.paidEntries)
    ensures DiffersInHistories(w.hub, AfterRound(w))
  {
    hide Process, WaitsConserved, Lifecycle, Solvent;
    ProcessKeepsLifecycle(w.hub, HistoricalTime(w), w.bank);
    ConservedAfterRound(w.hub, AfterRound(w), HistoricalTime(w), w.paidEntries);
  }

  /** The world after paying `user` out of the released storage. */
  ghost function Paid(w: World, released: Storage, user: Addr): World
    requires FinishedAmount(released, user) <= w.bank
  {
    var amount := FinishedAmount(released, user);
    w.(
      hub := PayUser(released, user, w.bank - amount),
      bank := w.bank - amount,
      paidOut := w.paidOut + amount,
      paidEntries := w.paidEntries + Finished(released, user),
      overcredit := w.overcredit + Excess(w))
  }

  lemma PayBooks(w: World, released: Storage, user: Addr)
    requires Books(w) && Lifecycle(released) && WaitsConserved(released, w.paidEntries)
    requires DiffersInHistories(w.hub, released)
    requires Owed(released.waits, released.histories) <= w.bank + w.overcredit + Excess(w)
    requires FinishedAmount(released, user) <= w.bank
    ensures Books(Paid(w, released, user))
  {
    hide WaitsConserved, Owed, FinishedAmount, Excess, Finished;
    var amount := FinishedAmount(released, user);
    PayConserves(released, user, w.bank - amount, w.paidEntries);
    PayTakesUsersPart(released, user, w.bank - amount);
    SameBatchesSameLifecycle(released, PayUser(released, user, w.bank - amount));
  }

  lemma WithdrawInv(w: World, user: Addr)
    requires Inv(w)
    ensures Inv(NextWithdraw(w, user))
  {
    hide Books, Backed, Process, FinishedAmount, Excess, Finished, Lifecycle, WaitsConserved, Owed;
    var r := Withdraw(w.hub, EnvOf(w), user);
    if r.Ok? {
      RoundBooks(w);
      RoundSolvency(w);
      PayBooks(w, AfterRound(w), user);
      assert NextWithdraw(w, user) == Paid(w, AfterRound(w), user);
    }
  }

  // ------------------------------------------------------------ whole runs

  lemma QuietInv(w: World, e: Event)
    requires Inv(w) && (e.Tick? || e.Arrive? || e.ChangeDelegations? || e.UpdateParams? || e.UpdateWhitelist?)
    ensures Inv(Next(w, e))
  {
    hide Books, Backed, DistinctValidators;
    SameBooks(w, Next(w, e));
  }

  lemma NextInv(w: World, e: Event)
    requires Inv(w)
    ensures Inv(Next(w, e))
  {
    hide Inv, NextBond, NextUnbond, NextWithdraw, Slash;
    match e
    case BurnDirectly(amount) => BurnInv(w, amount);
    case CheckSlashing => SlashInv(w);
    case BondCall(validator, funds) => BondInv(w, validator, funds);
    case UnbondCall(user, amount, rng) => UnbondInv(w, user, amount, rng);
    case WithdrawCall(user) => WithdrawInv(w, user);
    case _ => QuietInv(w, e);
  }

  /** Every state of every run satisfies the invariant. */
  lemma {:induction false} RunInv(w: World, events: seq<Event>)
    requires Inv(w)
    ensures Inv(Run(w, events))
    decreases |events|
  {
    hide Inv, Next;
    if |events| == 0 {
    } else {
      NextInv(w, events[0]);
      RunInv(Next(w, events[0]), events[1..]);
    }
  }
}
