/** Token, hub and reward contract executing a transaction together: messages run
    depth first, and the first failure undoes everything. */
module Execution {
  import opened Decimals
  import opened Token
  import HubTypes
  import Hub
  import HubRuns
  import Rewards
  import RewardRuns
  import Tax
  import Undelegations

  /** The three contracts, the hub's bank balance and delegations, the reward
      contract's bank balance, and the chain's tax. The hub's address is the token's
      minter. */
  datatype World = World(
    token: TokenState,
    reward: Rewards.Storage,
    hub: HubTypes.Storage,
    now: nat,
    delegations: seq<Undelegations.Delegation>,
    bank: nat,
    rewardBank: nat,
    taxRate: nat,
    taxCap: nat,
    log: Log)

  /** What has happened so far: the calls the hub and the reward contract have seen,
      the index updates, the rewards paid for each holder, and the coins the hub and the
      reward contract have sent to each address. */
  datatype Log = Log(
    hub: seq<HubRuns.Event>,
    reward: seq<RewardRuns.Event>,
    updates: seq<IndexUpdate>,
    paid: map<Addr, nat>,
    withdrawn: map<Addr, nat>,
    received: map<Addr, nat>)

  /** An index update: the token balances and supply at that moment and the coins
      it distributed. */
  datatype IndexUpdate = IndexUpdate(balances: map<Addr, nat>, supply: nat, claimed: nat)

  const EMPTY_LOG := Log([], [], [], map[], map[], map[])

  datatype Error =
    | TokenFailed(token: TokenError)
    | RewardFailed(reward: Rewards.Error)
    | HubFailed(hub: HubTypes.Error)
    | ClaimFailed(claim: Rewards.Error)
    | UpdateFailed(update: Rewards.Error)
    | BankFailed
    | NotUnderstood

  function EnvOf(w: World): HubTypes.Env {
    HubTypes.Env(w.now, w.token.supply, w.delegations, w.bank)
  }

  // -------------------------------------------------------------- execution

  type Stepped = Result<(World, seq<Message>), Error>

  /** One message: its effect, noted in the log, and the messages it causes. */
  ghost function Step(w: World, m: Message): Stepped {
    match Perform(w, m)
    case Err(e) => Err(e)
    case Ok(done) => Ok((done.0.(log := Logged(w, m)), done.1))
  }

  ghost function Perform(w: World, m: Message): Stepped {
    match m
    case Execute(call) => StepCall(w, call)
    case DecreaseBalance(a, amount) => StepReward(w, Rewards.Decrease(w.reward, true, a, amount))
    case IncreaseBalance(a, amount) => StepReward(w, Rewards.Increase(w.reward, true, a, amount))
    case Receive(contract, sender, amount, payload) => StepReceive(w, contract, sender, amount, payload)
    case StakingDelegate(validator, amount) =>
      Ok((w.(delegations := HubRuns.Delegate(w.delegations, validator, w.hub.params.coinDenom, amount)), []))
    case StakingUndelegate(ms) => Ok((w.(delegations := HubRuns.Undelegated(w.delegations, ms)), []))
    case BankSend(_, amount) => if amount <= w.bank then Ok((w.(bank := w.bank - amount), [])) else Err(BankFailed)
  }

  ghost function StepCall(w: World, call: Call): Stepped {
    match call
    case TokenCall(sender, op) =>
      (match Handle(w.token, sender, op)
       case Err(e) => Err(TokenFailed(e))
       case Ok(done) => Ok((w.(token := done.0), done.1)))
    case BondCall(sender, validator, funds) => StepBond(w, sender, validator, funds)
    case CheckSlashing(_) => Ok((w.(hub := Hub.Slash(w.hub, EnvOf(w))), []))
    case WithdrawUnbonded(sender) =>
      (match Hub.Withdraw(w.hub, EnvOf(w), sender)
       case Err(e) => Err(HubFailed(e))
       case Ok(done) => Ok((w.(hub := done.storage), [BankSend(sender, done.amount)])))
    case ClaimRewards(sender, _) => StepClaim(w, sender)
    case UpdateGlobalIndex(_, swapped) =>
      (match Rewards.UpdateGlobalIndex(w.reward, true, w.rewardBank + swapped)
       case Err(e) => Err(UpdateFailed(e))
       case Ok(after) => Ok((w.(reward := after, rewardBank := w.rewardBank + swapped), [])))
  }

  function StepClaim(w: World, sender: Addr): Stepped {
    match Rewards.Claim(w.reward, sender)
    case Err(e) => Err(ClaimFailed(e))
    case Ok(done) => Ok((
      w.(reward := done.storage,
         rewardBank := RewardRuns.BankAfterClaim(w.rewardBank, done.rewards, w.taxRate, w.taxCap)),
      []))
  }

  function StepReward(w: World, r: Result<Rewards.Storage, Rewards.Error>): Stepped {
    match r
    case Err(e) => Err(RewardFailed(e))
    case Ok(after) => Ok((w.(reward := after), []))
  }

  function StepBond(w: World, sender: Addr, validator: string, funds: seq<HubTypes.Coin>): Stepped {
    match Hub.Bond(w.hub, EnvOf(w), validator, funds)
    case Err(e) => Err(HubFailed(e))
    case Ok(done) => Ok((
      w.(hub := done.storage),
      [StakingDelegate(validator, done.payment), Execute(TokenCall(w.token.minter, Mint(sender, done.minted)))]))
  }

  /** The hub unbonds and burns what it received; any other contract reacts with
      calls of its own. */
  function StepReceive(w: World, contract: Addr, sender: Addr, amount: nat, payload: Payload): Stepped {
    if contract == w.token.minter then
      match payload
      case Reaction(_) => Err(NotUnderstood)
      case UnbondHook(rng) => StepUnbond(w, sender, amount, rng)
    else
      match payload
      case UnbondHook(_) => Err(NotUnderstood)
      case Reaction(calls) => if SentBy(calls, contract) then Ok((w, AsMessages(calls))) else Err(NotUnderstood)
  }

  function StepUnbond(w: World, sender: Addr, amount: nat, rng: nat -> nat): Stepped {
    match Hub.Unbond(w.hub, EnvOf(w), sender, amount, rng)
    case Err(e) => Err(HubFailed(e))
    case Ok(done) => Ok((
      w.(hub := done.storage),
      [StakingUndelegate(done.undelegations), Execute(TokenCall(w.token.minter, Burn(amount)))]))
  }

  predicate SentBy(calls: seq<Call>, a: Addr) {
    forall i :: 0 <= i < |calls| ==> calls[i].sender == a
  }

  function AsMessages(calls: seq<Call>): seq<Message> {
    seq(|calls|, i requires 0 <= i < |calls| => Execute(calls[i]))
  }

  // -------------------------------------------------------------------- log

  /** The log once `m` has been executed. */
  function Logged(w: World, m: Message): Log {
    Log(w.log.hub + HubEvents(w, m), w.log.reward + RewardEvents(w, m), w.log.updates + Updates(w, m),
      PaidAfter(w, m), WithdrawnAfter(w, m), ReceivedAfter(w, m))
  }

  /** The hub sees its calls, the unbonds it receives, and burns that are not its own. */
  function HubEvents(w: World, m: Message): seq<HubRuns.Event> {
    match m
    case Execute(BondCall(_, validator, funds)) => [HubRuns.BondCall(validator, funds)]
    case Execute(CheckSlashing(_)) => [HubRuns.CheckSlashing]
    case Execute(WithdrawUnbonded(sender)) => [HubRuns.WithdrawCall(sender)]
    case Execute(TokenCall(sender, op)) => if sender == w.token.minter then [] else SupplyEvents(op)
    case Receive(contract, sender, amount, UnbondHook(rng)) =>
      if contract == w.token.minter then [HubRuns.UnbondCall(sender, amount, rng)] else []
    case _ => []
  }

  /** A direct burn by a holder is the only token call the hub's run has to see. */
  function SupplyEvents(op: Operation): seq<HubRuns.Event> {
    if op.Burn? || op.BurnFrom? then [HubRuns.BurnDirectly(op.amount)] else []
  }

  function RewardEvents(w: World, m: Message): seq<RewardRuns.Event> {
    match m
    case DecreaseBalance(a, amount) => [RewardRuns.DecreaseCall(a, amount)]
    case IncreaseBalance(a, amount) => [RewardRuns.IncreaseCall(a, amount)]
    case Execute(ClaimRewards(sender, _)) => [RewardRuns.ClaimCall(sender, w.taxRate, w.taxCap)]
    case Execute(UpdateGlobalIndex(_, swapped)) => [RewardRuns.Arrive(swapped), RewardRuns.Update]
    case _ => []
  }

  function Updates(w: World, m: Message): seq<IndexUpdate> {
    match m
    case Execute(UpdateGlobalIndex(_, swapped)) =>
      var balance, prev := w.rewardBank + swapped, w.reward.state.prevRewardBalance;
      [IndexUpdate(w.token.balances, w.token.supply, if prev <= balance then balance - prev else 0)]
    case _ => []
  }

  function PaidAfter(w: World, m: Message): map<Addr, nat> {
    match m
    case Execute(ClaimRewards(a, _)) =>
      (match Rewards.Claim(w.reward, a)
       case Err(_) => w.log.paid
       case Ok(done) => Raise(w.log.paid, a, done.rewards))
    case _ => w.log.paid
  }

  function Raise(m: map<Addr, nat>, a: Addr, amount: nat): map<Addr, nat> {
    m[a := RewardRuns.Get(m, a) + amount]
  }

  function WithdrawnAfter(w: World, m: Message): map<Addr, nat> {
    if m.BankSend? then Raise(w.log.withdrawn, m.recipient, m.amount) else w.log.withdrawn
  }

  /** The reward less the tax goes to the named recipient, or else to the holder. */
  function ReceivedAfter(w: World, m: Message): map<Addr, nat> {
    match m
    case Execute(ClaimRewards(a, recipient)) =>
      (match Rewards.Claim(w.reward, a)
       case Err(_) => w.log.received
       case Ok(done) =>
         Raise(w.log.received, if recipient.Some? then recipient.value else a,
           Tax.DeductTax(done.rewards, w.taxRate, w.taxCap)))
    case _ => w.log.received
  }

  // ----------------------------------------------------------- termination

  function CallSize(c: Call): nat
    decreases c, 0
  {
    match c
    case TokenCall(_, op) => OperationSize(op)
    case BondCall(_, _, _) => 4
    case _ => 2
  }

  function OperationSize(op: Operation): nat
    decreases op, 0
  {
    match op
    case Send(_, _, payload) => 4 + PayloadSize(payload)
    case SendFrom(_, _, _, payload) => 4 + PayloadSize(payload)
    case Transfer(_, _) => 3
    case TransferFrom(_, _, _) => 3
    case _ => 2
  }

  function PayloadSize(p: Payload): nat
    decreases p, 0
  {
    match p
    case UnbondHook(_) => 3
    case Reaction(calls) => CallsSize(calls)
  }

  function CallsSize(calls: seq<Call>): nat
    decreases calls, 0
  {
    if |calls| == 0 then 0 else CallSize(calls[0]) + CallsSize(calls[1..])
  }

  function MessageSize(m: Message): nat {
    match m
    case Execute(call) => CallSize(call)
    case Receive(_, _, _, payload) => 1 + PayloadSize(payload)
    case _ => 1
  }

  function StackSize(ms: seq<Message>): nat {
    if |ms| == 0 then 0 else MessageSize(ms[0]) + StackSize(ms[1..])
  }

  lemma {:induction false} StackSizeAppend(a: seq<Message>, b: seq<Message>)
    ensures StackSize(a + b) == StackSize(a) + StackSize(b)
  {
    if |a| == 0 {
      assert a + b == b;
    } else {
      assert (a + b)[1..] == a[1..] + b && (a + b)[0] == a[0];
      StackSizeAppend(a[1..], b);
    }
  }

  lemma {:induction false} AsMessagesSize(calls: seq<Call>)
    ensures StackSize(AsMessages(calls)) == CallsSize(calls)
  {
    if |calls| == 0 {
    } else {
      assert AsMessages(calls)[1..] == AsMessages(calls[1..]);
      AsMessagesSize(calls[1..]);
    }
  }

  lemma SmallSize(ms: seq<Message>)
    requires 1 <= |ms| <= 3
    ensures StackSize(ms) == MessageSize(ms[0]) +
      (if |ms| > 1 then MessageSize(ms[1]) else 0) + (if |ms| > 2 then MessageSize(ms[2]) else 0)
  {
  }

  /** Every message causes messages that are smaller in all. */
  lemma StepShrinks(w: World, m: Message)
    ensures Step(w, m).Ok? ==> StackSize(Step(w, m).value.1) < MessageSize(m)
  {
    hide Hub.Bond, Hub.Unbond, Hub.Withdraw, Rewards.Increase, Rewards.Decrease, Rewards.Claim, Logged;
    hide Hub.Slash, Rewards.UpdateGlobalIndex, HubRuns.Delegate, HubRuns.Undelegated;
    if Step(w, m).Ok? {
      var sub := Step(w, m).value.1;
      if m.Receive? && m.payload.Reaction? {
        AsMessagesSize(m.payload.calls);
      } else if 1 <= |sub| <= 3 {
        SmallSize(sub);
        assert m.Execute? && m.call.TokenCall? ==> MessageSize(m) == OperationSize(m.call.op);
        assert m.Receive? ==> MessageSize(m) == 4 && MessageSize(sub[1]) == OperationSize(Burn(m.amount));
        assert m.Execute? && m.call.BondCall? ==> MessageSize(m) == 4 && MessageSize(sub[1]) == 2 by {
          if m.Execute? && m.call.BondCall? {
            assert MessageSize(sub[1]) == OperationSize(sub[1].call.op);
          }
        }
      }
    }
  }

  /** Run a stack of messages depth first; the first failure undoes everything. */
  ghost function RunStack(w: World, stack: seq<Message>): Result<World, Error>
    decreases StackSize(stack)
  {
    if |stack| == 0 then Ok(w)
    else match Step(w, stack[0])
      case Err(e) => Err(e)
      case Ok(done) =>
        StepShrinks(w, stack[0]);
        StackSizeAppend(done.1, stack[1..]);
        RunStack(done.0, done.1 + stack[1..])
  }

  /** A transaction: one call by a user or contract. */
  ghost function Transaction(w: World, call: Call): Result<World, Error> {
    RunStack(w, [Execute(call)])
  }

  lemma RunHead(w: World, m: Message, rest: seq<Message>)
    ensures Step(w, m).Err? ==> RunStack(w, [m] + rest) == Err(Step(w, m).error)
    ensures Step(w, m).Ok? ==> RunStack(w, [m] + rest) == RunStack(Step(w, m).value.0, Step(w, m).value.1 + rest)
  {
    hide Step, MessageSize;
    assert ([m] + rest)[1..] == rest && ([m] + rest)[0] == m;
  }
}
