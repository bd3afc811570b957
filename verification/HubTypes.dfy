/** The hub's stored data and what it is told by the chain. */
module HubTypes {
  import opened Undelegations

  type Addr = string

  datatype Coin = Coin(denom: string, amount: nat)

  datatype State = State(
    exchangeRate: nat,
    totalBondAmount: nat,
    prevHubBalance: nat,
    actualUnbondedAmount: nat,
    lastUnbondedTime: nat,
    lastProcessedBatch: nat)

  datatype UnbondHistory = UnbondHistory(
    batchId: nat,
    time: nat,
    amount: nat,
    appliedExchangeRate: nat,
    withdrawRate: nat,
    released: bool)

  datatype CurrentBatch = CurrentBatch(id: nat, requestedWithFee: nat)

  datatype Params = Params(
    epochPeriod: nat,
    unbondingPeriod: nat,
    pegRecoveryFee: nat,
    erThreshold: nat,
    coinDenom: string)

  /** One entry of the wait list. */
  datatype WaitKey = WaitKey(user: Addr, batch: nat)

  type Waits = map<WaitKey, nat>

  type Histories = map<nat, UnbondHistory>

  datatype Storage = Storage(
    params: Params,
    whitelist: set<string>,
    state: State,
    batch: CurrentBatch,
    histories: Histories,
    waits: Waits)

  /** The hub's view of the chain during one call: block time, bAsset supply, its
      own delegations and its own bank balance. */
  datatype Env = Env(now: nat, supply: nat, delegations: seq<Delegation>, bank: nat)

  datatype Error =
    | NotWhitelisted
    | MoreThanOneCoin
    | NoPayment
    | RateTooSmall
    | Underflow
    | ExceedsSupply
    | OneUnitUndelegation
    | NotEnoughDelegated
    | ExceedsBond
    | ReleaseFailed
    | NothingWithdrawable
    | InsufficientHubBalance

  /** Supply plus the requests of the open batch: everything the bond has to cover. */
  function Claims(s: Storage, supply: nat): nat {
    supply + s.batch.requestedWithFee
  }
}
