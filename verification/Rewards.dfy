/** The reward contract: a global index of rewards per token, and holders that are
    settled against it only when they are touched. Decimals are 128-bit; sums and
    products are taken in 256 bits and narrowed back, which panics when they do
    not fit. */
module Rewards {
  import opened Decimals

  type Addr = string

  const U128: nat := 0x1_0000_0000_0000_0000_0000_0000_0000_0000

  datatype Holder = Holder(balance: nat, index: nat, pending: nat)

  datatype State = State(globalIndex: nat, totalBalance: nat, prevRewardBalance: nat)

  datatype Storage = Storage(state: State, holders: map<Addr, Holder>)

  datatype Error =
    | Unauthorized
    | NothingBonded
    | BalanceShrank
    | NoRewards
    | ExceedsBalance
    | InsufficientRewards
    | Narrowing
    | AddOverflow
    | TotalTooSmall

  const EMPTY_HOLDER := Holder(0, 0, 0)

  const INITIAL := Storage(State(0, 0, 0), map[])

  /** `read_holder` with its default. */
  function ReadHolder(s: Storage, a: Addr): Holder {
    if a in s.holders then s.holders[a] else EMPTY_HOLDER
  }

  function Narrow(x: nat): Option<nat> {
    if x < U128 then Some(x) else None
  }

  function Multiply(a: nat, b: nat): Option<nat> {
    Narrow(b * a / ONE)
  }

  function Add(a: nat, b: nat): Option<nat> {
    Narrow(b + a)
  }

  function Subtract(a: nat, b: nat): Option<nat> {
    if a < b then None else Narrow(a - b)
  }

  /** `calculate_decimal_rewards`; None where a step panics. */
  function CalculateRewards(globalIndex: nat, userIndex: nat, balance: nat): Option<nat> {
    match Narrow(FromRatio(balance, 1))
    case None => None
    case Some(decimalBalance) =>
      match Subtract(globalIndex, userIndex)
      case None => None
      case Some(difference) => Multiply(difference, decimalBalance)
  }

  /** Everything a holder has coming: settled rewards plus those since the last settlement. */
  function Accrued(state: State, h: Holder): Option<nat> {
    match CalculateRewards(state.globalIndex, h.index, h.balance)
    case None => None
    case Some(rewards) => Add(rewards, h.pending)
  }

  // ------------------------------------------------------------- operations

  function Increase(s: Storage, byToken: bool, a: Addr, amount: nat): Result<Storage, Error> {
    var h := ReadHolder(s, a);
    if !byToken then Err(Unauthorized)
    else match Accrued(s.state, h)
      case None => Err(Narrowing)
      case Some(pending) =>
        if h.balance + amount >= U128 || s.state.totalBalance + amount >= U128 then Err(AddOverflow)
        else Ok(Storage(
          s.state.(totalBalance := s.state.totalBalance + amount),
          s.holders[a := Holder(h.balance + amount, s.state.globalIndex, pending)]))
  }

  function Decrease(s: Storage, byToken: bool, a: Addr, amount: nat): Result<Storage, Error> {
    var h := ReadHolder(s, a);
    if !byToken then Err(Unauthorized)
    else if h.balance < amount then Err(ExceedsBalance)
    else match Accrued(s.state, h)
      case None => Err(Narrowing)
      case Some(pending) =>
        if s.state.totalBalance < amount then Err(TotalTooSmall)
        else Ok(Storage(
          s.state.(totalBalance := s.state.totalBalance - amount),
          s.holders[a := Holder(h.balance - amount, s.state.globalIndex, pending)]))
  }

  datatype Claimed = Claimed(storage: Storage, rewards: nat)

  function Claim(s: Storage, a: Addr): Result<Claimed, Error> {
    var h := ReadHolder(s, a);
    match Accrued(s.state, h)
    case None => Err(Narrowing)
    case Some(all) =>
      var rewards := Times(1, all);
      if rewards == 0 then Err(NoRewards)
      else if s.state.prevRewardBalance < rewards then Err(InsufficientRewards)
      else Ok(Claimed(
        Storage(
          s.state.(prevRewardBalance := s.state.prevRewardBalance - rewards),
          s.holders[a := h.(index := s.state.globalIndex, pending := all % ONE)]),
        rewards))
  }

  /** `balance` is the contract's bank balance in the reward denomination. */
  function UpdateGlobalIndex(s: Storage, byHub: bool, balance: nat): Result<Storage, Error> {
    if !byHub then Err(Unauthorized)
    else if s.state.totalBalance == 0 then Err(NothingBonded)
    else if balance < s.state.prevRewardBalance then Err(BalanceShrank)
    else
      match Narrow(FromRatio(balance - s.state.prevRewardBalance, s.state.totalBalance))
      case None => Err(Narrowing)
      case Some(perToken) =>
        match Add(s.state.globalIndex, perToken)
        case None => Err(Narrowing)
        case Some(index) => Ok(s.(state := s.state.(globalIndex := index, prevRewardBalance := balance)))
  }

  /** `query_accrued_rewards`. */
  function QueryAccrued(s: Storage, a: Addr): Option<nat> {
    match Accrued(s.state, ReadHolder(s, a))
    case None => None
    case Some(all) => Some(Times(1, all))
  }
}
