/** The reward contract mirrors the token balances, whatever calls a transaction
    cascades into, and so credits every holder by the tokens held. */
module Mirror {
  import opened Decimals
  import opened Sums
  import opened Token
  import opened Execution
  import opened Earnings
  import HubTypes
  import Hub
  import HubRuns
  import Rewards
  import RewardRuns
  import Undelegations

  // -------------------------------------------------------------- mirroring

  function RewardBalance(w: World, a: Addr): nat {
    Rewards.ReadHolder(w.reward, a).balance
  }

  /** Token and reward balances differ by `gap` at every address and in total, and
      the balances of each contract add up to its total. */
  ghost predicate Mirrored(w: World, gap: Addr -> int, totalGap: int) {
    && (forall a :: BalanceOf(w.token.balances, a) - RewardBalance(w, a) == gap(a))
    && w.token.supply - w.reward.state.totalBalance == totalGap
    && Sum(w.token.balances) == w.token.supply
    && Sum(RewardRuns.Balances(w.reward)) == w.reward.state.totalBalance
  }

  /** The reward contract refuses a decrease it cannot subtract. */
  predicate Refusal(e: Rewards.Error) {
    e == Rewards.ExceedsBalance || e == Rewards.TotalTooSmall
  }

  function Shift(gap: Addr -> int, a: Addr, x: int): Addr -> int {
    b => gap(b) + (if b == a then x else 0)
  }

  lemma PutBalance(w: World, gap: Addr -> int, totalGap: int, a: Addr, balance: nat, supply: nat)
    requires Mirrored(w, gap, totalGap)
    requires supply == w.token.supply + balance - BalanceOf(w.token.balances, a)
    ensures var change := balance - BalanceOf(w.token.balances, a);
      Mirrored(w.(token := w.token.(balances := w.token.balances[a := balance], supply := supply)),
        Shift(gap, a, change), totalGap + change)
  {
    SumPut(w.token.balances, a, balance);
    var after := w.(token := w.token.(balances := w.token.balances[a := balance], supply := supply));
    var change := balance - BalanceOf(w.token.balances, a);
    forall b: Addr
      ensures BalanceOf(after.token.balances, b) - RewardBalance(after, b) == Shift(gap, a, change)(b)
    {
      assert BalanceOf(w.token.balances, b) - RewardBalance(w, b) == gap(b);
    }
  }

  lemma PutReward(w: World, gap: Addr -> int, totalGap: int, a: Addr, after: Rewards.Storage, change: int)
    requires Mirrored(w, gap, totalGap)
    requires after.holders.Keys == w.reward.holders.Keys + {a}
    requires forall b :: b in w.reward.holders && b != a ==> after.holders[b] == w.reward.holders[b]
    requires after.holders[a].balance == RewardBalance(w, a) + change
    requires after.state.totalBalance == w.reward.state.totalBalance + change
    ensures Mirrored(w.(reward := after), Shift(gap, a, 0 - change), totalGap - change)
  {
    assert RewardRuns.Balances(after) == RewardRuns.Balances(w.reward)[a := after.holders[a].balance];
    SumPut(RewardRuns.Balances(w.reward), a, after.holders[a].balance);
    forall b: Addr
      ensures BalanceOf(w.token.balances, b) - RewardBalance(w.(reward := after), b) == Shift(gap, a, 0 - change)(b)
    {
      assert BalanceOf(w.token.balances, b) - RewardBalance(w, b) == gap(b);
      assert b != a ==> RewardBalance(w.(reward := after), b) == RewardBalance(w, b);
    }
  }

  lemma RewardWithinTotal(w: World, gap: Addr -> int, totalGap: int, a: Addr)
    requires Mirrored(w, gap, totalGap)
    ensures RewardBalance(w, a) <= w.reward.state.totalBalance
  {
    if a in w.reward.holders {
      SumEntry(RewardRuns.Balances(w.reward), a);
    }
  }

  /** Only the reward contract and its log have changed, the gaps are as stated and
      the accounts are kept. */
  ghost predicate Settled(w: World, v: World, gap: Addr -> int, totalGap: int) {
    && v == w.(reward := v.reward, log := w.log.(reward := v.log.reward))
    && Mirrored(v, gap, totalGap)
    && (Accounted(w) ==> Accounted(v))
  }

  lemma SettledTwice(w: World, u: World, v: World, g: Addr -> int, t: int, gap: Addr -> int, totalGap: int)
    requires Settled(w, u, g, t) && Settled(u, v, gap, totalGap)
    ensures Settled(w, v, gap, totalGap)
  {
    hide Mirrored, Accounted;
  }

  lemma ReportSettles(w: World, m: Message, gap: Addr -> int, totalGap: int)
    requires (m.DecreaseBalance? || m.IncreaseBalance?) && Step(w, m).Ok?
    requires Mirrored(w.(reward := Step(w, m).value.0.reward), gap, totalGap)
    ensures Settled(w, Step(w, m).value.0, gap, totalGap)
  {
    hide Mirrored, Accounted, Rewards.Decrease, Rewards.Increase;
    var v := Step(w, m).value.0;
    OtherDataKeepsMirror(w.(reward := v.reward), v, gap, totalGap);
    if Accounted(w) {
      StepAccounted(w, m);
    }
  }

  lemma OtherDataKeepsMirror(v: World, after: World, gap: Addr -> int, totalGap: int)
    requires Mirrored(v, gap, totalGap) && after.token == v.token && after.reward == v.reward
    ensures Mirrored(after, gap, totalGap)
  {
  }

  lemma StepDecrease(w: World, gap: Addr -> int, totalGap: int, a: Addr, x: nat)
    requires Mirrored(w, gap, totalGap)
    ensures var r := Step(w, DecreaseBalance(a, x));
      && (r.Ok? ==> r.value.1 == [] && Settled(w, r.value.0, Shift(gap, a, x), totalGap + x))
      && (r.Err? ==> r.error.RewardFailed? && (x <= RewardBalance(w, a) ==> !Refusal(r.error.reward)))
  {
    hide Rewards.Accrued, Sum, Mirrored, Accounted;
    RewardWithinTotal(w, gap, totalGap, a);
    var r := Rewards.Decrease(w.reward, true, a, x);
    if r.Ok? {
      PutReward(w, gap, totalGap, a, r.value, 0 - x);
      ReportSettles(w, DecreaseBalance(a, x), Shift(gap, a, x), totalGap + x);
    }
  }

  lemma StepIncrease(w: World, gap: Addr -> int, totalGap: int, a: Addr, x: nat)
    requires Mirrored(w, gap, totalGap)
    ensures var r := Step(w, IncreaseBalance(a, x));
      && (r.Ok? ==> r.value.1 == [] && Settled(w, r.value.0, Shift(gap, a, 0 - x), totalGap - x))
      && (r.Err? ==> r.error.RewardFailed? && !Refusal(r.error.reward))
  {
    hide Rewards.Accrued, Sum, Mirrored, Accounted;
    var r := Rewards.Increase(w.reward, true, a, x);
    if r.Ok? {
      PutReward(w, gap, totalGap, a, r.value, x);
      ReportSettles(w, IncreaseBalance(a, x), Shift(gap, a, 0 - x), totalGap - x);
    }
  }

  lemma SameGap(w: World, gap: Addr -> int, other: Addr -> int, totalGap: int)
    requires Mirrored(w, gap, totalGap) && forall a :: gap(a) == other(a)
    ensures Mirrored(w, other, totalGap)
  {
  }

  // ------------------------------------------------ the parts of an operation

  /** Who loses tokens, who gains them, how many, and the receive message. */
  datatype Parts = Parts(source: Option<Addr>, target: Option<Addr>, amount: nat, receive: seq<Message>)

  function PartsOf(sender: Addr, op: Operation): Parts {
    match op
    case Transfer(recipient, amount) => Parts(Some(sender), Some(recipient), amount, [])
    case TransferFrom(owner, recipient, amount) => Parts(Some(owner), Some(recipient), amount, [])
    case Burn(amount) => Parts(Some(sender), None, amount, [])
    case BurnFrom(owner, amount) => Parts(Some(owner), None, amount, [])
    case Mint(recipient, amount) => Parts(None, Some(recipient), amount, [])
    case Send(contract, amount, payload) =>
      Parts(Some(sender), Some(contract), amount, [Receive(contract, sender, amount, payload)])
    case SendFrom(owner, contract, amount, payload) =>
      Parts(Some(owner), Some(contract), amount, [Receive(contract, sender, amount, payload)])
  }

  function Lowered(t: TokenState, source: Option<Addr>, amount: nat): TokenState
    requires source.Some? ==> amount <= BalanceOf(t.balances, source.value) && amount <= t.supply
  {
    if source.None? then t
    else t.(balances := t.balances[source.value := BalanceOf(t.balances, source.value) - amount],
            supply := t.supply - amount)
  }

  function Raised(t: TokenState, target: Option<Addr>, amount: nat): TokenState {
    if target.None? then t
    else t.(balances := t.balances[target.value := BalanceOf(t.balances, target.value) + amount],
            supply := t.supply + amount)
  }

  function Decreases(source: Option<Addr>, amount: nat): seq<Message> {
    if source.None? then [] else [DecreaseBalance(source.value, amount)]
  }

  function Increases(target: Option<Addr>, amount: nat): seq<Message> {
    if target.None? then [] else [IncreaseBalance(target.value, amount)]
  }

  /** Every handler lowers one balance, raises another, and reports exactly that,
      in this order, before anything else. */
  lemma HandleParts(t: TokenState, sender: Addr, op: Operation)
    requires Handle(t, sender, op).Ok? && Sum(t.balances) == t.supply
    ensures var p := PartsOf(sender, op);
      && (p.source.Some? ==> p.amount <= BalanceOf(t.balances, p.source.value) && p.amount <= t.supply)
      && Handle(t, sender, op).value.0 == Raised(Lowered(t, p.source, p.amount), p.target, p.amount)
      && Handle(t, sender, op).value.1 == Decreases(p.source, p.amount) + Increases(p.target, p.amount) + p.receive
  {
    hide Sum;
    var p := PartsOf(sender, op);
    if p.source.Some? {
      BalanceWithinSupply(t, p.source.value);
    }
    assert Decreases(p.source, p.amount) + Increases(p.target, p.amount) ==
      match op
      case Burn(_) => Decreases(p.source, p.amount)
      case BurnFrom(_, _) => Decreases(p.source, p.amount)
      case Mint(_, _) => Increases(p.target, p.amount)
      case _ => [DecreaseBalance(p.source.value, p.amount), IncreaseBalance(p.target.value, p.amount)];
  }

  /** The gaps once the token has moved and the reward contract has not heard of it. */
  function Ahead(gap: Addr -> int, p: Parts): Addr -> int {
    var lowered := if p.source.Some? then Shift(gap, p.source.value, 0 - p.amount) else gap;
    if p.target.Some? then Shift(lowered, p.target.value, p.amount) else lowered
  }

  function AheadInTotal(totalGap: int, p: Parts): int {
    totalGap - (if p.source.Some? then p.amount else 0) + (if p.target.Some? then p.amount else 0)
  }

  /** After a handler the token is ahead of the reward contract by exactly its parts. */
  lemma HandleShifts(w: World, gap: Addr -> int, totalGap: int, p: Parts)
    requires Mirrored(w, gap, totalGap)
    requires p.source.Some? ==>
      p.amount <= BalanceOf(w.token.balances, p.source.value) && p.amount <= w.token.supply
    ensures Mirrored(w.(token := Raised(Lowered(w.token, p.source, p.amount), p.target, p.amount)),
      Ahead(gap, p), AheadInTotal(totalGap, p))
  {
    hide Mirrored, Shift;
    var lowered := w.(token := Lowered(w.token, p.source, p.amount));
    var g1 := if p.source.Some? then Shift(gap, p.source.value, 0 - p.amount) else gap;
    var t1 := if p.source.Some? then totalGap - p.amount else totalGap;
    if p.source.Some? {
      PutBalance(w, gap, totalGap, p.source.value, BalanceOf(w.token.balances, p.source.value) - p.amount,
        w.token.supply - p.amount);
    }
    if p.target.Some? {
      PutBalance(lowered, g1, t1, p.target.value, BalanceOf(lowered.token.balances, p.target.value) + p.amount,
        lowered.token.supply + p.amount);
    }
  }

  /** The two reports close the gap the handler opened; if the reward contract held
      the source's old balance, neither of them is refused for lack of balance. */
  lemma ReportsSettle(w: World, p: Parts, rest: seq<Message>, gap: Addr -> int, totalGap: int) returns (v: World)
    requires Mirrored(w, Ahead(gap, p), AheadInTotal(totalGap, p))
    ensures var r := RunStack(w, Decreases(p.source, p.amount) + Increases(p.target, p.amount) + rest);
      || (r.Err? && r.error.RewardFailed? &&
          ((p.source.Some? ==> p.amount <= RewardBalance(w, p.source.value)) ==> !Refusal(r.error.reward)))
      || (Settled(w, v, gap, totalGap) && r == RunStack(v, rest))
  {
    hide Mirrored, RunStack, Step, RewardBalance, Accounted;
    var decs, incs := Decreases(p.source, p.amount), Increases(p.target, p.amount);
    var gv, tv := Ahead(gap, p), AheadInTotal(totalGap, p);
    v := w;
    var stack := decs + incs + rest;
    if p.source.Some? {
      assert stack == [DecreaseBalance(p.source.value, p.amount)] + (incs + rest);
      RunHead(w, DecreaseBalance(p.source.value, p.amount), incs + rest);
      StepDecrease(w, gv, tv, p.source.value, p.amount);
      var r := Step(w, DecreaseBalance(p.source.value, p.amount));
      if r.Err? {
        return;
      }
      v, gv, tv := r.value.0, Shift(gv, p.source.value, p.amount), tv + p.amount;
      assert [] + (incs + rest) == incs + rest;
    } else {
      assert stack == incs + rest;
    }
    assert RunStack(w, stack) == RunStack(v, incs + rest);
    if p.target.Some? {
      RunHead(v, IncreaseBalance(p.target.value, p.amount), rest);
      StepIncrease(v, gv, tv, p.target.value, p.amount);
      var r := Step(v, IncreaseBalance(p.target.value, p.amount));
      if r.Err? {
        return;
      }
      SettledTwice(w, v, r.value.0, gv, tv, Shift(gv, p.target.value, 0 - p.amount), tv - p.amount);
      v, gv, tv := r.value.0, Shift(gv, p.target.value, 0 - p.amount), tv - p.amount;
      assert [] + rest == rest;
    } else {
      assert incs + rest == rest;
    }
    SameGap(v, gv, gap, totalGap);
  }

  // ------------------------------------------------------------ whole stacks

  predicate Quiet(ms: seq<Message>) {
    forall i :: 0 <= i < |ms| ==>
      ms[i].Execute? || ms[i].StakingDelegate? || ms[i].StakingUndelegate? || ms[i].BankSend?
  }

  ghost predicate NeverBehind(gap: Addr -> int) {
    forall a :: gap(a) <= 0
  }

  ghost predicate NoGap(gap: Addr -> int, totalGap: int) {
    totalGap == 0 && forall a :: gap(a) == 0
  }

  lemma NoGapMatches(w: World, gap: Addr -> int, totalGap: int)
    requires Mirrored(w, gap, totalGap) && NoGap(gap, totalGap)
    ensures TokensMatch(w)
  {
    forall a: Addr
      ensures BalanceOf(w.token.balances, a) == RewardBalance(w, a)
    {
      assert BalanceOf(w.token.balances, a) - RewardBalance(w, a) == gap(a);
    }
  }

  /** The accounts survive where token and reward balances are the same. */
  ghost predicate KeepsAccounts(w: World, v: World, gap: Addr -> int, totalGap: int) {
    Accounted(w) && NoGap(gap, totalGap) ==> Accounted(v)
  }

  /** The outcome of a stack: mirrored and accounted for if it succeeds, and if it
      fails then neither for a refused decrease (where the reward contract was not
      behind) nor because the hub was asked to unbond more than the supply. */
  ghost predicate Faithful(w: World, r: Result<World, Error>, gap: Addr -> int, totalGap: int) {
    && (r.Ok? ==> Mirrored(r.value, gap, totalGap) && KeepsAccounts(w, r.value, gap, totalGap))
    && (NeverBehind(gap) && r.Err? && r.error.RewardFailed? ==> !Refusal(r.error.reward))
    && r != Err(HubFailed(HubTypes.ExceedsSupply))
  }

  lemma BondNeedsNoSupply(s: HubTypes.Storage, env: HubTypes.Env, validator: string, funds: seq<HubTypes.Coin>)
    ensures Hub.Bond(s, env, validator, funds) != Err(HubTypes.ExceedsSupply)
  {
  }

  lemma UnbondWithinSupply(s: HubTypes.Storage, env: HubTypes.Env, user: Addr, amount: nat, rng: nat -> nat)
    requires amount <= env.supply
    ensures Hub.Unbond(s, env, user, amount, rng) != Err(HubTypes.ExceedsSupply)
  {
    hide Hub.Slash, Hub.Request, Times, Undelegations.Pick;
  }

  lemma BalanceWithinSupply(t: TokenState, a: Addr)
    requires Sum(t.balances) == t.supply
    ensures BalanceOf(t.balances, a) <= t.supply
  {
    if a in t.balances {
      SumEntry(t.balances, a);
    }
  }

  /** A receiver that holds the received tokens passes on only calls. */
  lemma StepReceiveIsFaithful(w: World, m: Message, gap: Addr -> int, totalGap: int)
    requires m.Receive? && Mirrored(w, gap, totalGap) && m.amount <= BalanceOf(w.token.balances, m.contract)
    ensures var r := Step(w, m);
      && (r.Ok? ==> Mirrored(r.value.0, gap, totalGap) && Quiet(r.value.1))
      && (r.Ok? ==> KeepsAccounts(w, r.value.0, gap, totalGap))
      && (r.Err? ==> !r.error.RewardFailed? && r.error != HubFailed(HubTypes.ExceedsSupply))
  {
    hide Hub.Unbond, Sum, Accounted;
    if Step(w, m).Ok? && Accounted(w) {
      StepAccounted(w, m);
    }
    BalanceWithinSupply(w.token, m.contract);
    if m.payload.UnbondHook? {
      UnbondWithinSupply(w.hub, EnvOf(w), m.sender, m.amount, m.payload.rng);
    }
  }

  lemma ReceiveIsSmaller(sender: Addr, op: Operation)
    ensures var p := PartsOf(sender, op);
      && |p.receive| <= 1 && 0 < MessageSize(Execute(TokenCall(sender, op)))
      && (|p.receive| == 1 ==>
        && p.receive[0].Receive? && p.target == Some(p.receive[0].contract) && p.amount == p.receive[0].amount
        && MessageSize(p.receive[0]) < MessageSize(Execute(TokenCall(sender, op))))
  {
    assert MessageSize(Execute(TokenCall(sender, op))) == OperationSize(op);
  }

  /** A token handler and its reports leave a mirrored world in front of the
      receive message and the rest of the stack, or fail faithfully. */
  lemma TokenCallSettles(w: World, sender: Addr, op: Operation, rest: seq<Message>, gap: Addr -> int, totalGap: int)
    returns (v: World)
    requires Mirrored(w, gap, totalGap) && Handle(w.token, sender, op).Ok?
    ensures var p := PartsOf(sender, op); var r := RunStack(w, [Execute(TokenCall(sender, op))] + rest);
      || (r.Err? && r.error.RewardFailed? && (NeverBehind(gap) ==> !Refusal(r.error.reward)))
      || (&& Mirrored(v, gap, totalGap)
          && r == RunStack(v, p.receive + rest)
          && v == w.(token := Handle(w.token, sender, op).value.0, reward := v.reward, log := v.log)
          && v.log.hub == w.log.hub + HubEvents(w, Execute(TokenCall(sender, op)))
          && (Accounted(w) ==> Accounted(v))
          && (p.target.Some? ==> p.amount <= BalanceOf(v.token.balances, p.target.value)))
  {
    hide RunStack, Rewards.Decrease, Rewards.Increase, Mirrored, NeverBehind, Handle, PartsOf, Raised, Lowered;
    hide Accounted, HubEvents;
    var p := PartsOf(sender, op);
    var m := Execute(TokenCall(sender, op));
    var w1 := w.(token := Handle(w.token, sender, op).value.0, log := Logged(w, m));
    if Accounted(w) {
      StepAccounted(w, m);
    }
    TokensAddUp(w, gap, totalGap);
    HandleParts(w.token, sender, op);
    HandleShifts(w, gap, totalGap, p);
    OtherDataKeepsMirror(w.(token := w1.token), w1, Ahead(gap, p), AheadInTotal(totalGap, p));
    RaisedHolds(Lowered(w.token, p.source, p.amount), p.target, p.amount);
    v := ReportsSettle(w1, p, p.receive + rest, gap, totalGap);
    RunHead(w, m, rest);
    var decs, incs := Decreases(p.source, p.amount), Increases(p.target, p.amount);
    assert decs + incs + p.receive + rest == decs + incs + (p.receive + rest);
    if p.source.Some? && NeverBehind(gap) {
      SourceIsHeld(w, gap, totalGap, p.source.value);
      assert RewardBalance(w1, p.source.value) == RewardBalance(w, p.source.value);
    }
  }

  lemma TokensAddUp(w: World, gap: Addr -> int, totalGap: int)
    requires Mirrored(w, gap, totalGap)
    ensures Sum(w.token.balances) == w.token.supply
  {
  }

  lemma RaisedHolds(t: TokenState, target: Option<Addr>, amount: nat)
    ensures target.Some? ==> amount <= BalanceOf(Raised(t, target, amount).balances, target.value)
    ensures Raised(t, target, amount).minter == t.minter
  {
  }

  /** A reward contract that is not behind holds at least the token balance. */
  lemma SourceIsHeld(w: World, gap: Addr -> int, totalGap: int, a: Addr)
    requires Mirrored(w, gap, totalGap) && NeverBehind(gap)
    ensures BalanceOf(w.token.balances, a) <= RewardBalance(w, a)
  {
    hide Sum;
    assert gap(a) <= 0 && BalanceOf(w.token.balances, a) - RewardBalance(w, a) == gap(a);
  }

  /** Whatever calls a stack holds and whatever they cascade into, its execution is
      faithful. */
  lemma {:induction false} RunIsFaithful(w: World, stack: seq<Message>, gap: Addr -> int, totalGap: int)
    requires Quiet(stack) && Mirrored(w, gap, totalGap)
    ensures Faithful(w, RunStack(w, stack), gap, totalGap)
    decreases StackSize(stack)
  {
    hide Step, Mirrored, Accounted, NoGap, NeverBehind, MessageSize;
    if |stack| == 0 {
    } else {
      var m, rest := stack[0], stack[1..];
      assert stack == [m] + rest;
      RunHead(w, m, rest);
      StepShrinks(w, m);
      if m.Execute? && m.call.TokenCall? {
        TokenCallIsFaithful(w, m.call.sender, m.call.op, rest, gap, totalGap);
      } else {
        assert Quiet([m]);
        StepIsFaithful(w, m, gap, totalGap);
        if Step(w, m).Ok? {
          var sub := Step(w, m).value.1;
          StackSizeAppend(sub, rest);
          RunIsFaithful(Step(w, m).value.0, sub + rest, gap, totalGap);
        }
      }
    }
  }

  lemma SameRewardBalances(w: World, after: World, gap: Addr -> int, totalGap: int)
    requires Mirrored(w, gap, totalGap) && after.token == w.token
    requires forall a :: RewardBalance(after, a) == RewardBalance(w, a)
    requires after.reward.state.totalBalance == w.reward.state.totalBalance
    requires Sum(RewardRuns.Balances(after.reward)) == Sum(RewardRuns.Balances(w.reward))
    ensures Mirrored(after, gap, totalGap)
  {
  }

  lemma ClaimKeepsBalances(s: Rewards.Storage, a: Addr)
    requires Rewards.Claim(s, a).Ok?
    ensures var after := Rewards.Claim(s, a).value.storage;
      && Sum(RewardRuns.Balances(after)) == Sum(RewardRuns.Balances(s))
      && after.state.totalBalance == s.state.totalBalance
      && (forall b :: Rewards.ReadHolder(after, b).balance == Rewards.ReadHolder(s, b).balance)
  {
    hide Rewards.Accrued;
    var after := Rewards.Claim(s, a).value.storage;
    var balance := Rewards.ReadHolder(s, a).balance;
    assert RewardRuns.Balances(after) == RewardRuns.Balances(s)[a := balance];
    SumPut(RewardRuns.Balances(s), a, balance);
  }

  lemma WithdrawNeedsNoSupply(s: HubTypes.Storage, env: HubTypes.Env, user: Addr)
    ensures Hub.Withdraw(s, env, user) != Err(HubTypes.ExceedsSupply)
  {
  }

  /** Messages other than token calls leave both sets of balances alone. */
  lemma StepIsFaithful(w: World, m: Message, gap: Addr -> int, totalGap: int)
    requires Mirrored(w, gap, totalGap)
    requires Quiet([m]) && (m.Execute? ==> !m.call.TokenCall?)
    ensures var r := Step(w, m);
      && (r.Ok? ==> Mirrored(r.value.0, gap, totalGap) && Quiet(r.value.1) && r.value.0.token == w.token)
      && (r.Ok? ==> KeepsAccounts(w, r.value.0, gap, totalGap))
      && (r.Err? ==> !r.error.RewardFailed? && r.error != HubFailed(HubTypes.ExceedsSupply))
  {
    hide Hub.Bond, Hub.Withdraw, Hub.Slash, HubRuns.Delegate, HubRuns.Undelegated, Rewards.Claim, Mirrored;
    hide Accounted, NoGap;
    var r := Step(w, m);
    assert [m][0] == m;
    if r.Ok? && Accounted(w) && NoGap(gap, totalGap) {
      NoGapMatches(w, gap, totalGap);
      StepAccounted(w, m);
    }
    if m.Execute? && m.call.BondCall? {
      BondNeedsNoSupply(w.hub, EnvOf(w), m.call.validator, m.call.funds);
    } else if m.Execute? && m.call.WithdrawUnbonded? {
      WithdrawNeedsNoSupply(w.hub, EnvOf(w), m.call.sender);
    } else if m.Execute? && m.call.ClaimRewards? && r.Ok? {
      ClaimKeepsBalances(w.reward, m.call.sender);
    } else if m.Execute? && m.call.UpdateGlobalIndex? && r.Ok? {
      assert RewardRuns.Balances(r.value.0.reward) == RewardRuns.Balances(w.reward);
    }
    if r.Ok? {
      SameRewardBalances(w, r.value.0, gap, totalGap);
    }
  }

  lemma {:induction false} TokenCallIsFaithful(
      w: World, sender: Addr, op: Operation, rest: seq<Message>, gap: Addr -> int, totalGap: int)
    requires Quiet(rest) && Mirrored(w, gap, totalGap)
    ensures Faithful(w, RunStack(w, [Execute(TokenCall(sender, op))] + rest), gap, totalGap)
    decreases StackSize(rest) + MessageSize(Execute(TokenCall(sender, op))), 0
  {
    hide Mirrored, NeverBehind, Handle, RunStack, MessageSize, PartsOf, StepReceive, Accounted, NoGap;
    RunHead(w, Execute(TokenCall(sender, op)), rest);
    if Handle(w.token, sender, op).Ok? {
      var p := PartsOf(sender, op);
      ReceiveIsSmaller(sender, op);
      var v := TokenCallSettles(w, sender, op, rest, gap, totalGap);
      var r := RunStack(w, [Execute(TokenCall(sender, op))] + rest);
      if Mirrored(v, gap, totalGap) && r == RunStack(v, p.receive + rest)
        && (p.target.Some? ==> p.amount <= BalanceOf(v.token.balances, p.target.value))
        && (Accounted(w) ==> Accounted(v)) {
        if |p.receive| == 0 {
          assert p.receive + rest == rest;
          RunIsFaithful(v, rest, gap, totalGap);
        } else {
          var receive := p.receive[0];
          assert p.receive + rest == [receive] + rest;
          RunHead(v, receive, rest);
          StepReceiveIsFaithful(v, receive, gap, totalGap);
          StepShrinks(v, receive);
          if Step(v, receive).Ok? {
            var sub := Step(v, receive).value.1;
            StackSizeAppend(sub, rest);
            RunIsFaithful(Step(v, receive).value.0, sub + rest, gap, totalGap);
          }
        }
      }
    }
  }
}
