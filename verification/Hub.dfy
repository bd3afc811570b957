/** What each hub call does to the stored data, as a function of the data and of
    what the chain reports. An Err is a failed transaction. */
module Hub {
  import opened Decimals
  import opened Sums
  import opened HubTypes
  import opened Undelegations
  import opened ExchangeRate
  import opened WithdrawRate

  // ---------------------------------------------------- instantiate, slashing

  /** The first coin of the staking denomination with a positive amount. */
  function FindPayment(funds: seq<Coin>, denom: string): Option<nat> {
    if |funds| == 0 then None
    else if funds[0].denom == denom && funds[0].amount > 0 then Some(funds[0].amount)
    else FindPayment(funds[1..], denom)
  }

  function InitialStorage(params: Params, validator: string, payment: nat, now: nat): Storage {
    Storage(params, {validator}, State(ONE, payment, 0, 0, now, 0), CurrentBatch(1, 0), map[], map[])
  }

  function BondedIn(ds: seq<Delegation>, denom: string): nat {
    if |ds| == 0 then 0
    else BondedIn(ds[..|ds| - 1], denom) + (if ds[|ds| - 1].denom == denom then ds[|ds| - 1].amount else 0)
  }

  predicate FindsSlash(s: Storage, env: Env) {
    |env.delegations| > 0 && s.state.totalBondAmount > BondedIn(env.delegations, s.params.coinDenom)
  }

  function Slash(s: Storage, env: Env): Storage {
    if !FindsSlash(s, env) then s
    else
      var actual := BondedIn(env.delegations, s.params.coinDenom);
      s.(state := s.state.(totalBondAmount := actual, exchangeRate := Rate(actual, Claims(s, env.supply))))
  }

  /** The one slash no rate can follow: nothing is left under standing claims. */
  predicate SlashesToZero(s: Storage, env: Env) {
    FindsSlash(s, env) && BondedIn(env.delegations, s.params.coinDenom) == 0 && Claims(s, env.supply) > 0
  }

  // ------------------------------------------------------------------- bond

  /** The peg recovery fee taken from a mint or a request while the rate is below
      the threshold: never more than the gap between claims and bonded coins. */
  function LessPegFee(s: Storage, amount: nat, claims: nat, bonded: nat): Result<nat, Error> {
    if s.state.exchangeRate >= s.params.erThreshold then Ok(amount)
    else if claims < bonded then Err(Underflow)
    else
      var fee := Min(Times(amount, s.params.pegRecoveryFee), claims - bonded);
      if amount < fee then Err(Underflow) else Ok(amount - fee)
  }

  datatype Bonded = Bonded(storage: Storage, payment: nat, minted: nat)

  function Deposit(s: Storage, payment: nat, minted: nat, supply: nat): Storage {
    var bond := s.state.totalBondAmount + payment;
    s.(state := s.state.(totalBondAmount := bond, exchangeRate := Rate(bond, Claims(s, supply + minted))))
  }

  function Bond(s: Storage, env: Env, validator: string, funds: seq<Coin>): Result<Bonded, Error> {
    if validator !in s.whitelist then Err(NotWhitelisted)
    else if |funds| > 1 then Err(MoreThanOneCoin)
    else match FindPayment(funds, s.params.coinDenom)
      case None => Err(NoPayment)
      case Some(payment) => BondPayment(Slash(s, env), env.supply, payment)
  }

  function BondPayment(s: Storage, supply: nat, payment: nat): Result<Bonded, Error> {
    match DecimalDivision(payment, s.state.exchangeRate)
    case None => Err(RateTooSmall)
    case Some(mint) =>
      match LessPegFee(s, mint, Claims(s, supply + mint), s.state.totalBondAmount + payment)
      case Err(e) => Err(e)
      case Ok(minted) => Ok(Bonded(Deposit(s, payment, minted, supply), payment, minted))
  }

  // ----------------------------------------------------------------- unbond

  datatype Unbonded = Unbonded(storage: Storage, amountWithFee: nat, undelegations: seq<Undelegate>)

  function AddWait(w: Waits, user: Addr, batch: nat, amount: nat): Waits {
    var key := WaitKey(user, batch);
    w[key := (if key in w then w[key] else 0) + amount]
  }

  /** Book a request into the open batch and recompute the rate. */
  function Request(s: Storage, user: Addr, amount: nat, supply: nat): Storage {
    var requested := s.batch.requestedWithFee + amount;
    s.(
      batch := s.batch.(requestedWithFee := requested),
      waits := AddWait(s.waits, user, s.batch.id, amount),
      state := s.state.(exchangeRate := Rate(s.state.totalBondAmount, supply + requested)))
  }

  function UndelegationAmount(s: Storage): nat {
    Times(s.batch.requestedWithFee, s.state.exchangeRate)
  }

  /** Close the open batch at the current rate. */
  function Close(s: Storage, now: nat): Storage
    requires UndelegationAmount(s) <= s.state.totalBondAmount
  {
    var rate := s.state.exchangeRate;
    var history := UnbondHistory(s.batch.id, now, s.batch.requestedWithFee, rate, rate, false);
    s.(
      state := s.state.(
        totalBondAmount := s.state.totalBondAmount - UndelegationAmount(s), lastUnbondedTime := now),
      histories := s.histories[s.batch.id := history],
      batch := CurrentBatch(s.batch.id + 1, 0))
  }

  function Unbond(s: Storage, env: Env, user: Addr, amount: nat, rng: nat -> nat): Result<Unbonded, Error> {
    var checked := Slash(s, env);
    match LessPegFee(checked, amount, Claims(checked, env.supply), checked.state.totalBondAmount)
    case Err(e) => Err(e)
    case Ok(net) =>
      if env.supply < amount then Err(ExceedsSupply)
      else CloseIfDue(Request(checked, user, net, env.supply - amount), env, net, rng)
  }

  function CloseIfDue(s: Storage, env: Env, net: nat, rng: nat -> nat): Result<Unbonded, Error> {
    if env.now < s.state.lastUnbondedTime then Err(Underflow)
    else if env.now - s.state.lastUnbondedTime <= s.params.epochPeriod then Ok(Unbonded(s, net, []))
    else if UndelegationAmount(s) == 1 then Err(OneUnitUndelegation)
    else match Pick(env.delegations, UndelegationAmount(s), rng, 0)
      case None => Err(NotEnoughDelegated)
      case Some(messages) =>
        if s.state.totalBondAmount < UndelegationAmount(s) then Err(ExceedsBond)
        else Ok(Unbonded(Close(s, env.now), net, messages))
  }

  // --------------------------------------------------------------- withdraw

  datatype Withdrawn = Withdrawn(storage: Storage, amount: nat)

  /** The user's wait list entries whose batch is released. */
  function Finished(s: Storage, user: Addr): Waits {
    map k | k in s.waits && k.user == user && IsReleased(s.histories, k.batch) :: s.waits[k]
  }

  ghost function FinishedAmount(s: Storage, user: Addr): nat {
    Sum(OfUser(Payable(s.waits, s.histories), user))
  }

  function PayUser(s: Storage, user: Addr, balanceAfter: nat): Storage {
    s.(waits := s.waits - Finished(s, user).Keys, state := s.state.(prevHubBalance := balanceAfter))
  }

  /** What follows the release of the ripe batches. */
  ghost function Pay(s: Storage, bank: nat, user: Addr): Result<Withdrawn, Error> {
    var amount := FinishedAmount(s, user);
    if amount == 0 then Err(NothingWithdrawable)
    else if bank < amount then Err(InsufficientHubBalance)
    else Ok(Withdrawn(PayUser(s, user, bank - amount), amount))
  }

  ghost function Withdraw(s: Storage, env: Env, user: Addr): Result<Withdrawn, Error> {
    if env.now < s.params.unbondingPeriod then Err(Underflow)
    else match Process(s, env.now - s.params.unbondingPeriod, env.bank)
      case Err(e) => Err(e)
      case Ok(released) => Pay(released, env.bank, user)
  }
}
