/** The mirror over whole histories of transactions, and the unbond cascade in full. */
module MirrorRuns {
  import opened Decimals
  import opened Sums
  import opened Token
  import opened Execution
  import opened Earnings
  import opened Mirror
  import HubTypes
  import Hub
  import HubRuns
  import Rewards
  import RewardRuns
  import Undelegations
  import Tax

  /** Transactions by anyone, and what the chain and the owner do in between. */
  datatype Event =
    | Submit(call: Call)
    | Tick(seconds: nat)
    | ArriveAtHub(amount: nat)
    | ArriveAtReward(amount: nat)
    | ChangeDelegations(delegations: seq<Undelegations.Delegation>)
    | UpdateParams(params: HubTypes.Params)
    | UpdateWhitelist(validators: set<string>)
    | ChangeTax(rate: nat, cap: nat)

  ghost function Next(w: World, e: Event): World {
    match e
    case Submit(call) => (match Transaction(w, call) case Err(_) => w case Ok(v) => v)
    case _ => Between(w, e).(log := LoggedBetween(w.log, e))
  }

  function Between(w: World, e: Event): World {
    match e
    case Submit(_) => w
    case Tick(seconds) => w.(now := w.now + seconds)
    case ArriveAtHub(amount) => w.(bank := w.bank + amount)
    case ArriveAtReward(amount) => w.(rewardBank := w.rewardBank + amount)
    case ChangeDelegations(ds) => if Undelegations.DistinctValidators(ds) then w.(delegations := ds) else w
    case UpdateParams(p) => w.(hub := w.hub.(params := p.(coinDenom := w.hub.params.coinDenom)))
    case UpdateWhitelist(validators) => w.(hub := w.hub.(whitelist := validators))
    case ChangeTax(rate, cap) => w.(taxRate := rate, taxCap := cap)
  }

  function LoggedBetween(log: Log, e: Event): Log {
    log.(hub := log.hub + HubEventsBetween(e),
         reward := log.reward + (if e.ArriveAtReward? then [RewardRuns.Arrive(e.amount)] else []))
  }

  function HubEventsBetween(e: Event): seq<HubRuns.Event> {
    match e
    case Tick(seconds) => [HubRuns.Tick(seconds)]
    case ArriveAtHub(amount) => [HubRuns.Arrive(amount)]
    case ChangeDelegations(ds) => [HubRuns.ChangeDelegations(ds)]
    case UpdateParams(p) => [HubRuns.UpdateParams(p)]
    case UpdateWhitelist(validators) => [HubRuns.UpdateWhitelist(validators)]
    case _ => []
  }

  ghost function Run(w: World, es: seq<Event>): World
    decreases |es|
  {
    if |es| == 0 then w else Run(Next(w, es[0]), es[1..])
  }

  lemma SubmitIsFaithful(w: World, call: Call, gap: Addr -> int, totalGap: int)
    requires Mirrored(w, gap, totalGap)
    ensures Faithful(w, Transaction(w, call), gap, totalGap)
  {
    hide RunStack, Mirrored, Accounted;
    RunIsFaithful(w, [Execute(call)], gap, totalGap);
  }

  lemma NextMirrored(w: World, e: Event, gap: Addr -> int, totalGap: int)
    requires Mirrored(w, gap, totalGap)
    ensures Mirrored(Next(w, e), gap, totalGap)
  {
    hide Transaction, Mirrored, Accounted;
    if e.Submit? {
      SubmitIsFaithful(w, e.call, gap, totalGap);
    } else {
      OtherDataKeepsMirror(w, Next(w, e), gap, totalGap);
    }
  }

  lemma NextAccounted(w: World, e: Event, gap: Addr -> int, totalGap: int)
    requires Mirrored(w, gap, totalGap) && Accounted(w) && NoGap(gap, totalGap)
    ensures Accounted(Next(w, e))
  {
    hide Transaction, Mirrored, NoGap, RewardRuns.Run, Earned, RewardRuns.CreditOf;
    if e.Submit? {
      SubmitIsFaithful(w, e.call, gap, totalGap);
    } else if e.ArriveAtReward? {
      var arrive := RewardRuns.Arrive(e.amount);
      RewardRunAppend(RewardRuns.START, w.log.reward, [arrive]);
      ShortRewardRuns(RewardRunOf(w.log), arrive, arrive);
    } else {
      SameAccounts(w, Next(w, e));
    }
  }

  /** Where token and reward balances are the same they stay so, and the reward
      contract stays accounted for, over every history. */
  lemma {:induction false} RunAccounted(w: World, es: seq<Event>, gap: Addr -> int, totalGap: int)
    requires Mirrored(w, gap, totalGap) && Accounted(w) && NoGap(gap, totalGap)
    ensures Accounted(Run(w, es))
    decreases |es|
  {
    hide Mirrored, Next, Accounted, NoGap;
    if |es| == 0 {
    } else {
      NextMirrored(w, es[0], gap, totalGap);
      NextAccounted(w, es[0], gap, totalGap);
      RunAccounted(Next(w, es[0]), es[1..], gap, totalGap);
    }
  }

  /** Over every history the gap between token and reward balance of every address
      stays what it was at the start. */
  lemma {:induction false} RunMirrored(w: World, es: seq<Event>, gap: Addr -> int, totalGap: int)
    requires Mirrored(w, gap, totalGap)
    ensures Mirrored(Run(w, es), gap, totalGap)
    decreases |es|
  {
    hide Mirrored, Next;
    if |es| == 0 {
    } else {
      NextMirrored(w, es[0], gap, totalGap);
      RunMirrored(Next(w, es[0]), es[1..], gap, totalGap);
    }
  }

  /** A token instantiated without initial balances beside a fresh reward contract:
      the balances are equal for ever, the reward contract's total is the supply,
      and no transaction ever fails on a refused decrease. */
  lemma EmptyStartMirrors(w: World, es: seq<Event>, a: Addr, call: Call)
    requires w.token.balances == map[] && w.token.supply == 0 && w.reward == Rewards.INITIAL
    ensures var v := Run(w, es);
      && BalanceOf(v.token.balances, a) == RewardBalance(v, a)
      && v.reward.state.totalBalance == v.token.supply == Sum(v.token.balances)
      && (Transaction(v, call).Err? && Transaction(v, call).error.RewardFailed? ==>
        !Refusal(Transaction(v, call).error.reward))
  {
    hide Run, Transaction;
    assert RewardRuns.Balances(w.reward) == map[];
    var none: Addr -> int := _ => 0;
    RunMirrored(w, es, none, 0);
    var v := Run(w, es);
    SubmitIsFaithful(v, call, none, 0);
    assert NeverBehind(none);
    assert BalanceOf(v.token.balances, a) - RewardBalance(v, a) == none(a);
  }

  // ------------------------------------------- bond, withdrawal and claim in full

  /** One address has `amount` more and every other what it had. */
  ghost predicate RaisedFor(before: map<Addr, nat>, after: map<Addr, nat>, a: Addr, amount: nat) {
    forall b :: BalanceOf(after, b) == BalanceOf(before, b) + (if b == a then amount else 0)
  }

  /** Bond, delegate and mint in one transaction: if the hub accepts, the sender's tokens
      and the supply grow by what it mints, nobody else's balance changes, and the
      payment is delegated. Nothing but a mint of nothing or an overflow in the reward
      contract can still stop it. */
  lemma BondCascade(
      w: World, sender: Addr, validator: string, funds: seq<HubTypes.Coin>, gap: Addr -> int, totalGap: int)
    requires Mirrored(w, gap, totalGap) && Hub.Bond(w.hub, EnvOf(w), validator, funds).Ok?
    ensures var r := Transaction(w, BondCall(sender, validator, funds));
      var done := Hub.Bond(w.hub, EnvOf(w), validator, funds).value;
      && (done.minted == 0 ==> r == Err(TokenFailed(ZeroAmount)))
      && (done.minted > 0 && r.Err? ==>
        r.error == RewardFailed(Rewards.Narrowing) || r.error == RewardFailed(Rewards.AddOverflow))
      && (r.Ok? ==>
        && Mirrored(r.value, gap, totalGap)
        && r.value.hub == done.storage && r.value.bank == w.bank && r.value.now == w.now
        && r.value.delegations == HubRuns.Delegate(w.delegations, validator, w.hub.params.coinDenom, done.payment)
        && r.value.token.supply == w.token.supply + done.minted
        && RaisedFor(w.token.balances, r.value.token.balances, sender, done.minted))
  {
    hide Mirrored, RunStack, Hub.Bond, NeverBehind, HubRuns.Delegate, Accounted, PaidAfter, ReceivedAfter, HubEvents;
    var call := Execute(BondCall(sender, validator, funds));
    var done := Hub.Bond(w.hub, EnvOf(w), validator, funds).value;
    var r := Transaction(w, BondCall(sender, validator, funds));
    var hub := w.token.minter;
    var stake, mint := StakingDelegate(validator, done.payment), Execute(TokenCall(hub, Mint(sender, done.minted)));
    assert [call] + [] == [call];
    RewardErrors(w, [call]);
    RunHead(w, call, []);
    var w1 := w.(hub := done.storage, log := Logged(w, call));
    assert [stake, mint] + [] == [stake] + [mint];
    RunHead(w1, stake, [mint]);
    BondKeepsParams(w.hub, EnvOf(w), validator, funds);
    var w2 := w1.(
      delegations := HubRuns.Delegate(w.delegations, validator, w.hub.params.coinDenom, done.payment),
      log := Logged(w1, stake));
    assert [] + [mint] == [mint] + [];
    OtherDataKeepsMirror(w, w2, gap, totalGap);
    RunHead(w2, mint, []);
    if done.minted > 0 {
      MintNeverRefused(w2, hub, sender, done.minted, gap, totalGap);
    }
  }

  lemma BondKeepsParams(s: HubTypes.Storage, env: HubTypes.Env, validator: string, funds: seq<HubTypes.Coin>)
    ensures var r := Hub.Bond(s, env, validator, funds); r.Ok? ==> r.value.storage.params == s.params
  {
  }

  /** The hub's mint and its report, alone on the stack. */
  lemma MintNeverRefused(w: World, hub: Addr, to: Addr, amount: nat, gap: Addr -> int, totalGap: int)
    requires Mirrored(w, gap, totalGap) && amount > 0 && hub == w.token.minter
    ensures var r := RunStack(w, [Execute(TokenCall(hub, Mint(to, amount)))] + []);
      && (r.Err? ==> r.error.RewardFailed? && !Refusal(r.error.reward))
      && (r.Ok? ==>
        && Mirrored(r.value, gap, totalGap)
        && r.value == w.(token := r.value.token, reward := r.value.reward, log := r.value.log)
        && r.value.token.supply == w.token.supply + amount
        && RaisedFor(w.token.balances, r.value.token.balances, to, amount))
  {
    hide Mirrored, RunStack, Accounted, PaidAfter, ReceivedAfter, HubEvents, Rewards.Increase;
    var m, report := Execute(TokenCall(hub, Mint(to, amount))), IncreaseBalance(to, amount);
    RunHead(w, m, []);
    var minted := w.(token := Create(w.token, to, amount).0, log := Logged(w, m));
    assert [report] + [] == [report] + [];
    RunHead(minted, report, []);
    PutBalance(w, gap, totalGap, to, BalanceOf(w.token.balances, to) + amount, w.token.supply + amount);
    OtherDataKeepsMirror(w.(token := minted.token), minted, Shift(gap, to, amount), totalGap + amount);
    StepIncrease(minted, Shift(gap, to, amount), totalGap + amount, to, amount);
    var done := Step(minted, report);
    if done.Ok? {
      assert done.value.1 + [] == [];
      RunNothing(done.value.0);
      SameGap(done.value.0, Shift(Shift(gap, to, amount), to, 0 - amount), gap, totalGap);
    }
  }

  /** A withdrawal succeeds exactly if the hub accepts it; the coins leave the hub's bank
      for the sender and for nobody else. */
  lemma WithdrawCascade(w: World, sender: Addr)
    ensures var r, done := Transaction(w, WithdrawUnbonded(sender)), Hub.Withdraw(w.hub, EnvOf(w), sender);
      && (r.Ok? <==> done.Ok?)
      && (r.Ok? ==>
        && done.value.amount <= w.bank
        && r.value == w.(hub := done.value.storage, bank := w.bank - done.value.amount, log := r.value.log)
        && RaisedFor(w.log.withdrawn, r.value.log.withdrawn, sender, done.value.amount))
  {
    hide RunStack, Hub.Withdraw, HubEvents, PaidAfter, ReceivedAfter;
    var m := Execute(WithdrawUnbonded(sender));
    assert [m] + [] == [m];
    RunHead(w, m, []);
    var done := Hub.Withdraw(w.hub, EnvOf(w), sender);
    if done.Ok? {
      WithdrawWithinBank(w.hub, EnvOf(w), sender);
      var w1 := w.(hub := done.value.storage, log := Logged(w, m));
      var send := BankSend(sender, done.value.amount);
      RunHead(w1, send, []);
      assert Step(w1, send).value.1 + [] == [];
      RunNothing(Step(w1, send).value.0);
    }
  }

  lemma WithdrawWithinBank(s: HubTypes.Storage, env: HubTypes.Env, user: Addr)
    ensures var r := Hub.Withdraw(s, env, user); r.Ok? ==> r.value.amount <= env.bank
  {
  }

  /** A claim succeeds exactly if the reward contract accepts it; the reward less the tax
      goes to the named recipient, or else to the sender, and to nobody else. */
  lemma ClaimCascade(w: World, sender: Addr, recipient: Option<Addr>)
    ensures var r, done := Transaction(w, ClaimRewards(sender, recipient)), Rewards.Claim(w.reward, sender);
      var to := if recipient.Some? then recipient.value else sender;
      && (r.Ok? <==> done.Ok?)
      && (r.Ok? ==>
        && r.value == w.(reward := done.value.storage, rewardBank := r.value.rewardBank, log := r.value.log)
        && RaisedFor(w.log.received, r.value.log.received, to,
             Tax.DeductTax(done.value.rewards, w.taxRate, w.taxCap)))
  {
    hide RunStack, Rewards.Claim, HubEvents, RewardEvents, RewardRuns.BankAfterClaim, Tax.DeductTax;
    var m := Execute(ClaimRewards(sender, recipient));
    assert [m] + [] == [m];
    RunHead(w, m, []);
    if Step(w, m).Ok? {
      assert Step(w, m).value.1 + [] == [];
      RunNothing(Step(w, m).value.0);
    }
  }

  // ---------------------------------------------------------- unbond cascade

  /** Send to the hub, receive, unbond, burn, all in one transaction: if the hub
      accepts, the sender's tokens and the supply shrink by the amount, nobody
      else's balance changes, and the hub's data is what `execute_unbond` leaves.
      Nothing but an overflow in the reward contract can still stop it. */
  lemma UnbondCascade(w: World, user: Addr, amount: nat, rng: nat -> nat, gap: Addr -> int, totalGap: int)
    requires Mirrored(w, gap, totalGap) && NeverBehind(gap)
    requires user != w.token.minter && 0 < amount <= BalanceOf(w.token.balances, user)
    requires Hub.Unbond(w.hub, EnvOf(w), user, amount, rng).Ok?
    ensures var r := Transaction(w, TokenCall(user, Send(w.token.minter, amount, UnbondHook(rng))));
      var done := Hub.Unbond(w.hub, EnvOf(w), user, amount, rng).value;
      && (r.Err? ==> r.error == RewardFailed(Rewards.Narrowing) || r.error == RewardFailed(Rewards.AddOverflow))
      && (r.Ok? ==>
        && Mirrored(r.value, gap, totalGap)
        && r.value.hub == done.storage
        && r.value.delegations == HubRuns.Undelegated(w.delegations, done.undelegations)
        && r.value.token.supply == w.token.supply - amount
        && forall a ::
          BalanceOf(r.value.token.balances, a) == BalanceOf(w.token.balances, a) - (if a == user then amount else 0))
  {
    hide Mirrored, RunStack, Hub.Unbond, NeverBehind, HubRuns.Undelegated, Accounted;
    var hub := w.token.minter;
    var op := Send(hub, amount, UnbondHook(rng));
    var r := Transaction(w, TokenCall(user, op));
    var done := Hub.Unbond(w.hub, EnvOf(w), user, amount, rng).value;
    assert [Execute(TokenCall(user, op))] + [] == [Execute(TokenCall(user, op))];
    RewardErrors(w, [Execute(TokenCall(user, op))]);
    SubmitIsFaithful(w, TokenCall(user, op), gap, totalGap);
    var v := TokenCallSettles(w, user, op, [], gap, totalGap);
    if !(r.Err? && r.error.RewardFailed?) {
      var receive := Receive(hub, user, amount, UnbondHook(rng));
      assert PartsOf(user, op).receive + [] == [receive] + [];
      RunHead(v, receive, []);
      assert EnvOf(v) == EnvOf(w) && v.hub == w.hub;
      var v1 := v.(hub := done.storage, log := Logged(v, receive));
      var stake, burn := StakingUndelegate(done.undelegations), Execute(TokenCall(hub, Burn(amount)));
      assert Step(v, receive) == Ok((v1, [stake, burn]));
      assert [stake, burn] + [] == [stake] + [burn];
      RunHead(v1, stake, [burn]);
      var v2 := v1.(
        delegations := HubRuns.Undelegated(w.delegations, done.undelegations), log := Logged(v1, stake));
      assert [] + [burn] == [burn] + [];
      OtherDataKeepsMirror(v, v2, gap, totalGap);
      BurnAccepted(v2, amount, gap, totalGap);
      var v3 := TokenCallSettles(v2, hub, Burn(amount), [], gap, totalGap);
      assert PartsOf(hub, Burn(amount)).receive + [] == [];
      RunNothing(v3);
      CascadeBalances(w, user, amount);
    }
  }

  lemma RunNothing(w: World)
    ensures RunStack(w, []) == Ok(w)
  {
  }

  lemma BurnAccepted(v: World, amount: nat, gap: Addr -> int, totalGap: int)
    requires Mirrored(v, gap, totalGap) && 0 < amount <= BalanceOf(v.token.balances, v.token.minter)
    ensures Handle(v.token, v.token.minter, Burn(amount)).Ok?
  {
    BalanceWithinSupply(v.token, v.token.minter);
  }

  lemma CascadeBalances(w: World, user: Addr, amount: nat)
    requires user != w.token.minter && amount <= BalanceOf(w.token.balances, user) && 0 < amount
    ensures var moved := Moved(w.token.balances, user, w.token.minter, amount);
      forall a :: BalanceOf(moved[w.token.minter := BalanceOf(moved, w.token.minter) - amount], a) ==
        BalanceOf(w.token.balances, a) - (if a == user then amount else 0)
  {
  }

  /** Reward messages only ever fail for lack of balance or for an overflow. */
  lemma {:induction false} RewardErrors(w: World, stack: seq<Message>)
    ensures var r := RunStack(w, stack);
      r.Err? && r.error.RewardFailed? ==>
        Refusal(r.error.reward) || r.error.reward == Rewards.Narrowing || r.error.reward == Rewards.AddOverflow
    decreases StackSize(stack)
  {
    hide Hub.Bond, Hub.Unbond, Hub.Withdraw, Rewards.Accrued, Rewards.Claim, MessageSize, Handle;
    if |stack| > 0 && Step(w, stack[0]).Ok? {
      var done := Step(w, stack[0]).value;
      StepShrinks(w, stack[0]);
      StackSizeAppend(done.1, stack[1..]);
      RewardErrors(done.0, done.1 + stack[1..]);
    }
  }

  /** Why the order of the messages matters: had the receiver been called before the
      two reports, the nested burn would be refused by the reward contract unless
      the hub already held that many tokens there. */
  lemma ReceiveFirstWouldFail(w: World, user: Addr, amount: nat, rng: nat -> nat)
    requires 0 < amount <= BalanceOf(w.token.balances, w.token.minter)
    requires amount <= w.token.supply && RewardBalance(w, w.token.minter) < amount
    requires Hub.Unbond(w.hub, EnvOf(w), user, amount, rng).Ok?
    ensures var hub := w.token.minter;
      RunStack(w, [Receive(hub, user, amount, UnbondHook(rng)), DecreaseBalance(user, amount),
        IncreaseBalance(hub, amount)]) == Err(RewardFailed(Rewards.ExceedsBalance))
  {
    hide RunStack, Hub.Unbond, HubRuns.Undelegated;
    var hub := w.token.minter;
    var reports := [DecreaseBalance(user, amount), IncreaseBalance(hub, amount)];
    var receive := Receive(hub, user, amount, UnbondHook(rng));
    var done := Hub.Unbond(w.hub, EnvOf(w), user, amount, rng).value;
    var stake, burn := StakingUndelegate(done.undelegations), Execute(TokenCall(hub, Burn(amount)));
    assert [receive, reports[0], reports[1]] == [receive] + reports;
    RunHead(w, receive, reports);
    assert [stake, burn] + reports == [stake] + ([burn] + reports);
    var w1 := w.(hub := done.storage, log := Logged(w, receive));
    RunHead(w1, stake, [burn] + reports);
    assert [] + ([burn] + reports) == [burn] + reports;
    var w2 := w1.(delegations := HubRuns.Undelegated(w.delegations, done.undelegations), log := Logged(w1, stake));
    RunHead(w2, burn, reports);
    var w3 := w2.(token := Handle(w2.token, hub, Burn(amount)).value.0, log := Logged(w2, burn));
    RunHead(w3, DecreaseBalance(hub, amount), reports);
  }
}
