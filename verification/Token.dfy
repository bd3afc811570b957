/** The bAsset token: CW20 balances plus the ordered messages by which every
    handler tells the reward contract about a balance change. */
module Token {
  import opened Decimals
  import opened Sums
  import HubTypes
  import Undelegations

  type Addr = string

  /** What a user or contract can ask for. An index update first swaps reward coins
      into the reward contract; how many is up to the market. */
  datatype Call =
    | TokenCall(sender: Addr, op: Operation)
    | BondCall(sender: Addr, validator: string, funds: seq<HubTypes.Coin>)
    | CheckSlashing(sender: Addr)
    | WithdrawUnbonded(sender: Addr)
    | ClaimRewards(sender: Addr, recipient: Option<Addr>)
    | UpdateGlobalIndex(sender: Addr, swapped: nat)

  datatype Operation =
    | Transfer(recipient: Addr, amount: nat)
    | Burn(amount: nat)
    | Mint(recipient: Addr, amount: nat)
    | Send(contract: Addr, amount: nat, payload: Payload)
    | TransferFrom(owner: Addr, recipient: Addr, amount: nat)
    | BurnFrom(owner: Addr, amount: nat)
    | SendFrom(owner: Addr, contract: Addr, amount: nat, payload: Payload)

  /** The binary message handed to a receiving contract: the hub's unbond hook (with
      the draws its validator selection will make), or anything that makes another
      contract react with calls of its own. */
  datatype Payload = UnbondHook(rng: nat -> nat) | Reaction(calls: seq<Call>)

  /** Messages the contracts send to each other and to the chain. */
  datatype Message =
    | Execute(call: Call)
    | DecreaseBalance(address: Addr, amount: nat)
    | IncreaseBalance(address: Addr, amount: nat)
    | Receive(contract: Addr, sender: Addr, amount: nat, payload: Payload)
    | StakingDelegate(validator: string, amount: nat)
    | BankSend(recipient: Addr, amount: nat)
    | StakingUndelegate(undelegations: seq<Undelegations.Undelegate>)

  datatype TokenError = ZeroAmount | InsufficientBalance | NotMinter

  datatype TokenState = TokenState(balances: map<Addr, nat>, supply: nat, minter: Addr)

  function BalanceOf(balances: map<Addr, nat>, a: Addr): nat {
    if a in balances then balances[a] else 0
  }

  /** Lower one balance, then raise another; also right when they are the same. */
  function Moved(balances: map<Addr, nat>, source: Addr, target: Addr, amount: nat): map<Addr, nat>
    requires amount <= BalanceOf(balances, source)
  {
    var lowered := balances[source := BalanceOf(balances, source) - amount];
    lowered[target := BalanceOf(lowered, target) + amount]
  }

  function Move(t: TokenState, source: Addr, target: Addr, amount: nat, messages: seq<Message>)
    : Result<(TokenState, seq<Message>), TokenError>
  {
    if BalanceOf(t.balances, source) < amount then Err(InsufficientBalance)
    else Ok((t.(balances := Moved(t.balances, source, target, amount)), messages))
  }

  function Destroy(t: TokenState, owner: Addr, amount: nat): Result<(TokenState, seq<Message>), TokenError> {
    if BalanceOf(t.balances, owner) < amount || t.supply < amount then Err(InsufficientBalance)
    else Ok((
      t.(balances := t.balances[owner := BalanceOf(t.balances, owner) - amount], supply := t.supply - amount),
      [DecreaseBalance(owner, amount)]))
  }

  function Create(t: TokenState, recipient: Addr, amount: nat): (TokenState, seq<Message>) {
    (t.(balances := t.balances[recipient := BalanceOf(t.balances, recipient) + amount], supply := t.supply + amount),
     [IncreaseBalance(recipient, amount)])
  }

  /** The seven handlers. Allowances are granted: any sender may act for any owner. */
  function Handle(t: TokenState, sender: Addr, op: Operation): Result<(TokenState, seq<Message>), TokenError> {
    match op
    case Transfer(recipient, amount) =>
      if amount == 0 then Err(ZeroAmount)
      else Move(t, sender, recipient, amount, [DecreaseBalance(sender, amount), IncreaseBalance(recipient, amount)])
    case Burn(amount) => if amount == 0 then Err(ZeroAmount) else Destroy(t, sender, amount)
    case Mint(recipient, amount) =>
      if amount == 0 then Err(ZeroAmount)
      else if sender != t.minter then Err(NotMinter)
      else Ok(Create(t, recipient, amount))
    case Send(contract, amount, payload) =>
      if amount == 0 then Err(ZeroAmount)
      else Move(t, sender, contract, amount, SendMessages(sender, sender, contract, amount, payload))
    case TransferFrom(owner, recipient, amount) =>
      Move(t, owner, recipient, amount, [DecreaseBalance(owner, amount), IncreaseBalance(recipient, amount)])
    case BurnFrom(owner, amount) => Destroy(t, owner, amount)
    case SendFrom(owner, contract, amount, payload) =>
      Move(t, owner, contract, amount, SendMessages(owner, sender, contract, amount, payload))
  }

  /** The reward contract hears of both balances before the receiver is called. */
  function SendMessages(owner: Addr, sender: Addr, contract: Addr, amount: nat, payload: Payload): seq<Message> {
    [DecreaseBalance(owner, amount), IncreaseBalance(contract, amount), Receive(contract, sender, amount, payload)]
  }

  // ---------------------------------------------------------------- effects

  /** What a handler means to a caller: the new balance of every address, the new
      supply, and that balances still add up to it. */
  ghost predicate Effect(
    before: TokenState, after: TokenState, source: Option<Addr>, target: Option<Addr>, amount: nat)
  {
    && (forall a :: BalanceOf(after.balances, a) == BalanceOf(before.balances, a)
         - (if source == Some(a) then amount else 0) + (if target == Some(a) then amount else 0))
    && after.supply == before.supply - (if source.Some? then amount else 0) + (if target.Some? then amount else 0)
    && after.minter == before.minter
    && (Sum(before.balances) == before.supply ==> Sum(after.balances) == after.supply)
  }

  lemma MoveEffect(t: TokenState, source: Addr, target: Addr, amount: nat)
    requires amount <= BalanceOf(t.balances, source)
    ensures Effect(t, t.(balances := Moved(t.balances, source, target, amount)), Some(source), Some(target), amount)
  {
    hide Sum;
    var lowered := t.balances[source := BalanceOf(t.balances, source) - amount];
    SumPut(t.balances, source, BalanceOf(t.balances, source) - amount);
    SumPut(lowered, target, BalanceOf(lowered, target) + amount);
  }

  lemma DestroyEffect(t: TokenState, owner: Addr, amount: nat)
    requires Destroy(t, owner, amount).Ok?
    ensures Effect(t, Destroy(t, owner, amount).value.0, Some(owner), None, amount)
  {
    SumPut(t.balances, owner, BalanceOf(t.balances, owner) - amount);
  }

  lemma CreateEffect(t: TokenState, recipient: Addr, amount: nat)
    ensures Effect(t, Create(t, recipient, amount).0, None, Some(recipient), amount)
  {
    SumPut(t.balances, recipient, BalanceOf(t.balances, recipient) + amount);
  }

  /** The token contract with its stored balances. */
  class TokenContract {
    var balances: map<Addr, nat>
    var supply: nat
    const minter: Addr

    function Stored(): TokenState
      reads this
    {
      TokenState(balances, supply, minter)
    }

    constructor (hub: Addr)
      ensures Stored() == TokenState(map[], 0, hub)
    {
      balances := map[];
      supply := 0;
      minter := hub;
    }

    /** The library's transfer of balances. */
    method Cw20Move(source: Addr, target: Addr, amount: nat) returns (ok: bool)
      modifies this`balances
      ensures ok <==> amount <= BalanceOf(old(balances), source)
      ensures balances == if ok then Moved(old(balances), source, target, amount) else old(balances)
      ensures ok ==> Effect(old(Stored()), Stored(), Some(source), Some(target), amount)
    {
      hide Effect;
      if BalanceOf(balances, source) < amount {
        return false;
      }
      MoveEffect(Stored(), source, target, amount);
      balances := balances[source := BalanceOf(balances, source) - amount];
      balances := balances[target := BalanceOf(balances, target) + amount];
      return true;
    }

    method ExecuteTransfer(sender: Addr, recipient: Addr, amount: nat)
      returns (r: Result<seq<Message>, TokenError>)
      modifies this
      ensures match Handle(old(Stored()), sender, Transfer(recipient, amount))
        case Err(e) => r == Err(e) && Stored() == old(Stored())
        case Ok(done) => r == Ok(done.1) && Stored() == done.0
      ensures r.Ok? <==> 0 < amount <= BalanceOf(old(balances), sender)
      ensures r.Ok? ==> r.value == [DecreaseBalance(sender, amount), IncreaseBalance(recipient, amount)]
      ensures r.Ok? ==> Effect(old(Stored()), Stored(), Some(sender), Some(recipient), amount)
    {
      hide Effect;
      if amount == 0 {
        return Err(ZeroAmount);
      }
      var ok := Cw20Move(sender, recipient, amount);
      if !ok {
        return Err(InsufficientBalance);
      }
      return Ok([DecreaseBalance(sender, amount), IncreaseBalance(recipient, amount)]);
    }

    method ExecuteTransferFrom(sender: Addr, owner: Addr, recipient: Addr, amount: nat)
      returns (r: Result<seq<Message>, TokenError>)
      modifies this
      ensures match Handle(old(Stored()), sender, TransferFrom(owner, recipient, amount))
        case Err(e) => r == Err(e) && Stored() == old(Stored())
        case Ok(done) => r == Ok(done.1) && Stored() == done.0
      ensures r.Ok? <==> amount <= BalanceOf(old(balances), owner)
      ensures r.Ok? ==> r.value == [DecreaseBalance(owner, amount), IncreaseBalance(recipient, amount)]
      ensures r.Ok? ==> Effect(old(Stored()), Stored(), Some(owner), Some(recipient), amount)
    {
      hide Effect;
      var ok := Cw20Move(owner, recipient, amount);
      if !ok {
        return Err(InsufficientBalance);
      }
      return Ok([DecreaseBalance(owner, amount), IncreaseBalance(recipient, amount)]);
    }

    method ExecuteSend(sender: Addr, contract: Addr, amount: nat, payload: Payload)
      returns (r: Result<seq<Message>, TokenError>)
      modifies this
      ensures match Handle(old(Stored()), sender, Send(contract, amount, payload))
        case Err(e) => r == Err(e) && Stored() == old(Stored())
        case Ok(done) => r == Ok(done.1) && Stored() == done.0
      ensures r.Ok? <==> 0 < amount <= BalanceOf(old(balances), sender)
      ensures r.Ok? ==> r.value == SendMessages(sender, sender, contract, amount, payload)
      ensures r.Ok? ==> Effect(old(Stored()), Stored(), Some(sender), Some(contract), amount)
    {
      hide Effect;
      if amount == 0 {
        return Err(ZeroAmount);
      }
      var ok := Cw20Move(sender, contract, amount);
      if !ok {
        return Err(InsufficientBalance);
      }
      var receive := [Receive(contract, sender, amount, payload)];
      var messages := [DecreaseBalance(sender, amount), IncreaseBalance(contract, amount)] + receive;
      assert messages == SendMessages(sender, sender, contract, amount, payload);
      return Ok(messages);
    }

    method ExecuteSendFrom(sender: Addr, owner: Addr, contract: Addr, amount: nat, payload: Payload)
      returns (r: Result<seq<Message>, TokenError>)
      modifies this
      ensures match Handle(old(Stored()), sender, SendFrom(owner, contract, amount, payload))
        case Err(e) => r == Err(e) && Stored() == old(Stored())
        case Ok(done) => r == Ok(done.1) && Stored() == done.0
      ensures r.Ok? <==> amount <= BalanceOf(old(balances), owner)
      ensures r.Ok? ==> r.value == SendMessages(owner, sender, contract, amount, payload)
      ensures r.Ok? ==> Effect(old(Stored()), Stored(), Some(owner), Some(contract), amount)
    {
      hide Effect;
      var ok := Cw20Move(owner, contract, amount);
      if !ok {
        return Err(InsufficientBalance);
      }
      var receive := [Receive(contract, sender, amount, payload)];
      var messages := [DecreaseBalance(owner, amount), IncreaseBalance(contract, amount)] + receive;
      assert messages == SendMessages(owner, sender, contract, amount, payload);
      return Ok(messages);
    }

    /** The library's burn, for the owner's own and for allowed burns. */
    method Cw20Burn(owner: Addr, amount: nat) returns (ok: bool)
      modifies this
      ensures ok <==> Destroy(old(Stored()), owner, amount).Ok?
      ensures Stored() == if ok then Destroy(old(Stored()), owner, amount).value.0 else old(Stored())
      ensures ok ==> Effect(old(Stored()), Stored(), Some(owner), None, amount)
    {
      hide Effect;
      if BalanceOf(balances, owner) < amount || supply < amount {
        return false;
      }
      DestroyEffect(Stored(), owner, amount);
      balances := balances[owner := BalanceOf(balances, owner) - amount];
      supply := supply - amount;
      return true;
    }

    method ExecuteBurn(sender: Addr, amount: nat) returns (r: Result<seq<Message>, TokenError>)
      modifies this
      ensures match Handle(old(Stored()), sender, Burn(amount))
        case Err(e) => r == Err(e) && Stored() == old(Stored())
        case Ok(done) => r == Ok(done.1) && Stored() == done.0
      ensures r.Ok? <==> 0 < amount <= BalanceOf(old(balances), sender) && amount <= old(supply)
      ensures r.Ok? ==> r.value == [DecreaseBalance(sender, amount)]
      ensures r.Ok? ==> Effect(old(Stored()), Stored(), Some(sender), None, amount)
    {
      hide Effect;
      if amount == 0 {
        return Err(ZeroAmount);
      }
      var ok := Cw20Burn(sender, amount);
      if !ok {
        return Err(InsufficientBalance);
      }
      return Ok([DecreaseBalance(sender, amount)]);
    }

    method ExecuteBurnFrom(sender: Addr, owner: Addr, amount: nat) returns (r: Result<seq<Message>, TokenError>)
      modifies this
      ensures match Handle(old(Stored()), sender, BurnFrom(owner, amount))
        case Err(e) => r == Err(e) && Stored() == old(Stored())
        case Ok(done) => r == Ok(done.1) && Stored() == done.0
      ensures r.Ok? <==> amount <= BalanceOf(old(balances), owner) && amount <= old(supply)
      ensures r.Ok? ==> r.value == [DecreaseBalance(owner, amount)]
      ensures r.Ok? ==> Effect(old(Stored()), Stored(), Some(owner), None, amount)
    {
      hide Effect;
      var ok := Cw20Burn(owner, amount);
      if !ok {
        return Err(InsufficientBalance);
      }
      return Ok([DecreaseBalance(owner, amount)]);
    }

    method ExecuteMint(sender: Addr, recipient: Addr, amount: nat) returns (r: Result<seq<Message>, TokenError>)
      modifies this
      ensures match Handle(old(Stored()), sender, Mint(recipient, amount))
        case Err(e) => r == Err(e) && Stored() == old(Stored())
        case Ok(done) => r == Ok(done.1) && Stored() == done.0
      ensures r.Ok? <==> amount > 0 && sender == minter
      ensures r.Ok? ==> r.value == [IncreaseBalance(recipient, amount)]
      ensures r.Ok? ==> Effect(old(Stored()), Stored(), None, Some(recipient), amount)
    {
      hide Effect;
      if amount == 0 {
        return Err(ZeroAmount);
      }
      if sender != minter {
        return Err(NotMinter);
      }
      CreateEffect(Stored(), recipient, amount);
      supply := supply + amount;
      balances := balances[recipient := BalanceOf(balances, recipient) + amount];
      return Ok([IncreaseBalance(recipient, amount)]);
    }
  }
}
