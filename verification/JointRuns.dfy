/** The three contracts as one system. Every transaction, with all it cascades into,
    changes the hub exactly as the hub events it logs do with the real token supply,
    and the reward contract as the reward events it logs do; so what holds of their
    runs holds of the system. */
module JointRuns {
  import opened Decimals
  import opened Sums
  import opened Token
  import opened Execution
  import opened Earnings
  import opened Mirror
  import HubTypes
  import Hub
  import HubRuns
  import HubTheorems
  import WithdrawRate
  import MirrorRuns
  import Rewards
  import RewardRuns

  // ----------------------------------------------------------------- the hub

  /** The hub's run sees the system's hub data, token supply, delegations and bank. */
  ghost predicate MatchesHub(w: World, h: HubRuns.World) {
    && h.hub == w.hub && h.supply == w.token.supply && h.delegations == w.delegations
    && h.bank == w.bank && h.now == w.now
  }

  lemma OneEvent(h: HubRuns.World, e: HubRuns.Event)
    ensures HubRuns.Run(h, [e]) == HubRuns.Next(h, e)
  {
    hide HubRuns.Next;
    assert [e][1..] == [];
  }

  lemma {:induction false} HubRunAppend(h: HubRuns.World, a: seq<HubRuns.Event>, b: seq<HubRuns.Event>)
    ensures HubRuns.Run(h, a + b) == HubRuns.Run(HubRuns.Run(h, a), b)
    decreases |a|
  {
    hide HubRuns.Next;
    if |a| == 0 {
      assert a + b == b;
    } else {
      assert (a + b)[1..] == a[1..] + b && (a + b)[0] == a[0];
      HubRunAppend(HubRuns.Next(h, a[0]), a[1..], b);
    }
  }

  /** Calls by anyone but the hub itself, which sends only what its handlers send. */
  predicate Outside(ms: seq<Message>, hub: Addr) {
    forall i :: 0 <= i < |ms| ==> ms[i].Execute? && ms[i].call.sender != hub
  }

  /** Where a stack stands after one of its calls and everything that call causes,
      short of the calls a receiving contract reacts with. */
  ghost predicate Reached(
    w: World, call: Call, rest: seq<Message>, h: HubRuns.World, gap: Addr -> int, totalGap: int,
    v: World, sub: seq<Message>, es: seq<HubRuns.Event>)
  {
    && RunStack(w, [Execute(call)] + rest) == RunStack(v, sub + rest)
    && StackSize(sub) < CallSize(call) && Outside(sub, w.token.minter)
    && Mirrored(v, gap, totalGap) && v.token.minter == w.token.minter
    && v.log.hub == w.log.hub + es && MatchesHub(v, HubRuns.Run(h, es))
  }

  lemma SlashingIsHubEvent(
      w: World, call: Call, rest: seq<Message>, h: HubRuns.World, gap: Addr -> int, totalGap: int)
    returns (v: World, es: seq<HubRuns.Event>)
    requires call.CheckSlashing? && Mirrored(w, gap, totalGap) && MatchesHub(w, h)
    ensures Reached(w, call, rest, h, gap, totalGap, v, [], es)
  {
    hide RunStack, Mirrored, Hub.Slash;
    v := w.(hub := Hub.Slash(w.hub, EnvOf(w)), log := Logged(w, Execute(call)));
    es := [HubRuns.CheckSlashing];
    RunHead(w, Execute(call), rest);
    SameRewardBalances(w, v, gap, totalGap);
    OneEvent(h, HubRuns.CheckSlashing);
  }

  lemma WithdrawIsHubEvent(
      w: World, call: Call, rest: seq<Message>, h: HubRuns.World, gap: Addr -> int, totalGap: int)
    returns (v: World, es: seq<HubRuns.Event>)
    requires call.WithdrawUnbonded? && Mirrored(w, gap, totalGap) && MatchesHub(w, h)
    requires RunStack(w, [Execute(call)] + rest).Ok?
    ensures Reached(w, call, rest, h, gap, totalGap, v, [], es)
  {
    hide RunStack, Mirrored, Hub.Withdraw, HubRuns.Excess, HubRuns.AfterRound;
    RunHead(w, Execute(call), rest);
    var done := Hub.Withdraw(w.hub, EnvOf(w), call.sender).value;
    var send := BankSend(call.sender, done.amount);
    var w1 := w.(hub := done.storage, log := Logged(w, Execute(call)));
    RunHead(w1, send, rest);
    v, es := w1.(bank := w.bank - done.amount, log := Logged(w1, send)), [HubRuns.WithdrawCall(call.sender)];
    SameRewardBalances(w, v, gap, totalGap);
    OneEvent(h, HubRuns.WithdrawCall(call.sender));
    assert [] + rest == rest;
  }

  /** Reward calls do not concern the hub. */
  lemma RewardCallIsNoHubEvent(
      w: World, call: Call, rest: seq<Message>, h: HubRuns.World, gap: Addr -> int, totalGap: int)
    returns (v: World, es: seq<HubRuns.Event>)
    requires (call.ClaimRewards? || call.UpdateGlobalIndex?) && Mirrored(w, gap, totalGap) && MatchesHub(w, h)
    requires RunStack(w, [Execute(call)] + rest).Ok?
    ensures Reached(w, call, rest, h, gap, totalGap, v, [], es)
  {
    hide RunStack, Mirrored, Rewards.Claim;
    RunHead(w, Execute(call), rest);
    StepIsFaithful(w, Execute(call), gap, totalGap);
    v, es := Step(w, Execute(call)).value.0, [];
  }

  lemma BondIsHubEvent(
      w: World, call: Call, rest: seq<Message>, h: HubRuns.World, gap: Addr -> int, totalGap: int)
    returns (v: World, es: seq<HubRuns.Event>)
    requires call.BondCall? && Mirrored(w, gap, totalGap) && MatchesHub(w, h)
    requires RunStack(w, [Execute(call)] + rest).Ok?
    ensures Reached(w, call, rest, h, gap, totalGap, v, [], es)
  {
    hide RunStack, Mirrored, Hub.Bond, HubRuns.Delegate, Accounted, NeverBehind, Refusal, PaidAfter;
    RunHead(w, Execute(call), rest);
    var done := Hub.Bond(w.hub, EnvOf(w), call.validator, call.funds).value;
    var hub := w.token.minter;
    var stake := StakingDelegate(call.validator, done.payment);
    var mint := Execute(TokenCall(hub, Mint(call.sender, done.minted)));
    var w1 := w.(hub := done.storage, log := Logged(w, Execute(call)));
    assert [stake, mint] + rest == [stake] + ([mint] + rest);
    RunHead(w1, stake, [mint] + rest);
    assert [] + ([mint] + rest) == [mint] + rest;
    MirrorRuns.BondKeepsParams(w.hub, EnvOf(w), call.validator, call.funds);
    var w2 := w1.(
      delegations := HubRuns.Delegate(w.delegations, call.validator, w.hub.params.coinDenom, done.payment),
      log := Logged(w1, stake));
    SameRewardBalances(w, w2, gap, totalGap);
    RunHead(w2, mint, rest);
    v := TokenCallSettles(w2, hub, Mint(call.sender, done.minted), rest, gap, totalGap);
    es := [HubRuns.BondCall(call.validator, call.funds)];
    OneEvent(h, es[0]);
  }

  lemma TokenCallIsHubEvent(w: World, sender: Addr, op: Operation, v: World, h: HubRuns.World)
    requires Handle(w.token, sender, op).Ok? && sender != w.token.minter && MatchesHub(w, h)
    requires v == w.(token := Handle(w.token, sender, op).value.0, reward := v.reward, log := v.log)
    ensures MatchesHub(v, HubRuns.Run(h, SupplyEvents(op))) && v.token.minter == w.token.minter
  {
    if op.Burn? || op.BurnFrom? {
      OneEvent(h, HubRuns.BurnDirectly(op.amount));
    }
  }

  /** The hub's own burn after an unbond ends in the world of an unbond event. */
  lemma UnbondIsHubEvent(
      v: World, receive: Message, rest: seq<Message>, h: HubRuns.World, gap: Addr -> int, totalGap: int)
    returns (u: World, e: HubRuns.Event)
    requires receive.Receive? && receive.contract == v.token.minter
    requires Mirrored(v, gap, totalGap) && MatchesHub(v, h) && RunStack(v, [receive] + rest).Ok?
    ensures RunStack(v, [receive] + rest) == RunStack(u, rest)
    ensures Mirrored(u, gap, totalGap) && MatchesHub(u, HubRuns.Next(h, e)) && u.token.minter == v.token.minter
    ensures u.log.hub == v.log.hub + [e]
  {
    hide RunStack, Mirrored, Hub.Unbond, HubRuns.Undelegated, Accounted, NeverBehind, Refusal, PaidAfter;
    RunHead(v, receive, rest);
    var hub, amount, rng := v.token.minter, receive.amount, receive.payload.rng;
    var done := Hub.Unbond(v.hub, EnvOf(v), receive.sender, amount, rng).value;
    var stake, burn := StakingUndelegate(done.undelegations), Execute(TokenCall(hub, Burn(amount)));
    var v1 := v.(hub := done.storage, log := Logged(v, receive));
    assert [stake, burn] + rest == [stake] + ([burn] + rest);
    RunHead(v1, stake, [burn] + rest);
    assert [] + ([burn] + rest) == [burn] + rest;
    var v2 := v1.(delegations := HubRuns.Undelegated(v.delegations, done.undelegations), log := Logged(v1, stake));
    SameRewardBalances(v, v2, gap, totalGap);
    RunHead(v2, burn, rest);
    u := TokenCallSettles(v2, hub, Burn(amount), rest, gap, totalGap);
    e := HubRuns.UnbondCall(receive.sender, amount, rng);
    assert [] + rest == rest;
  }

  /** A contract other than the hub that receives tokens reacts with its own calls. */
  lemma ReactionIsNoHubEvent(u: World, receive: Message, h: HubRuns.World)
    requires receive.Receive? && receive.contract != u.token.minter && Step(u, receive).Ok? && MatchesHub(u, h)
    ensures var v := Step(u, receive).value.0;
      && v == u.(log := v.log) && v.log.hub == u.log.hub && MatchesHub(v, h)
      && Outside(Step(u, receive).value.1, u.token.minter)
  {
  }

  lemma TokenCallReaches(
      w: World, call: Call, rest: seq<Message>, h: HubRuns.World, gap: Addr -> int, totalGap: int)
    returns (v: World, sub: seq<Message>, es: seq<HubRuns.Event>)
    requires call.TokenCall? && call.sender != w.token.minter && Mirrored(w, gap, totalGap) && MatchesHub(w, h)
    requires RunStack(w, [Execute(call)] + rest).Ok?
    ensures Reached(w, call, rest, h, gap, totalGap, v, sub, es)
  {
    hide RunStack, Mirrored, Handle, MatchesHub, PartsOf, StepUnbond, CallSize;
    RunHead(w, Execute(call), rest);
    var p := PartsOf(call.sender, call.op);
    var u := TokenCallSettles(w, call.sender, call.op, rest, gap, totalGap);
    TokenCallIsHubEvent(w, call.sender, call.op, u, h);
    ReceiveIsSmaller(call.sender, call.op);
    assert MessageSize(Execute(call)) == CallSize(call);
    es := SupplyEvents(call.op);
    if |p.receive| == 0 {
      v, sub := u, [];
      assert p.receive + rest == rest && [] + rest == rest;
    } else {
      var receive := p.receive[0];
      assert p.receive + rest == [receive] + rest;
      if receive.contract == w.token.minter {
        var e;
        v, e := UnbondIsHubEvent(u, receive, rest, HubRuns.Run(h, es), gap, totalGap);
        OneEvent(HubRuns.Run(h, es), e);
        HubRunAppend(h, es, [e]);
        es, sub := es + [e], [];
        assert [] + rest == rest;
      } else {
        RunHead(u, receive, rest);
        StepShrinks(u, receive);
        ReactionIsNoHubEvent(u, receive, HubRuns.Run(h, es));
        v, sub := Step(u, receive).value.0, Step(u, receive).value.1;
        OtherDataKeepsMirror(u, v, gap, totalGap);
      }
    }
  }

  lemma CallReaches(w: World, call: Call, rest: seq<Message>, h: HubRuns.World, gap: Addr -> int, totalGap: int)
    returns (v: World, sub: seq<Message>, es: seq<HubRuns.Event>)
    requires call.sender != w.token.minter && Mirrored(w, gap, totalGap) && MatchesHub(w, h)
    requires RunStack(w, [Execute(call)] + rest).Ok?
    ensures Reached(w, call, rest, h, gap, totalGap, v, sub, es)
  {
    hide RunStack, Mirrored, MatchesHub, Reached;
    sub := [];
    match call
    case TokenCall(_, _) => v, sub, es := TokenCallReaches(w, call, rest, h, gap, totalGap);
    case BondCall(_, _, _) => v, es := BondIsHubEvent(w, call, rest, h, gap, totalGap);
    case CheckSlashing(_) => v, es := SlashingIsHubEvent(w, call, rest, h, gap, totalGap);
    case WithdrawUnbonded(_) => v, es := WithdrawIsHubEvent(w, call, rest, h, gap, totalGap);
    case ClaimRewards(_, _) => v, es := RewardCallIsNoHubEvent(w, call, rest, h, gap, totalGap);
    case UpdateGlobalIndex(_, _) => v, es := RewardCallIsNoHubEvent(w, call, rest, h, gap, totalGap);
  }

  /** The hub is where the calls it has seen lead from `start`. */
  ghost predicate HubInStep(w: World, start: HubRuns.World) {
    MatchesHub(w, HubRuns.Run(start, w.log.hub))
  }

  /** A stack of calls that succeeds changes the hub as the hub events it logs do. */
  lemma {:induction false} StackIsHubRun(
      w: World, stack: seq<Message>, start: HubRuns.World, gap: Addr -> int, totalGap: int)
    requires Outside(stack, w.token.minter) && Mirrored(w, gap, totalGap) && HubInStep(w, start)
    requires RunStack(w, stack).Ok?
    ensures HubInStep(RunStack(w, stack).value, start)
    ensures RunStack(w, stack).value.token.minter == w.token.minter
    decreases StackSize(stack)
  {
    hide Mirrored, MatchesHub, Step, CallSize, HubRuns.Run;
    if |stack| > 0 {
      var call, rest := stack[0].call, stack[1..];
      assert stack == [Execute(call)] + rest;
      var v, sub, es := CallReaches(w, call, rest, HubRuns.Run(start, w.log.hub), gap, totalGap);
      HubRunAppend(start, w.log.hub, es);
      StackSizeAppend(sub, rest);
      assert MessageSize(stack[0]) == CallSize(call);
      StackIsHubRun(v, sub + rest, start, gap, totalGap);
    }
  }

  lemma NoEvents(h: HubRuns.World)
    ensures HubRuns.Run(h, []) == h
  {
  }

  /** The hub's view of a system that starts. */
  function HubStart(w: World): HubRuns.World {
    HubRuns.World(w.hub, w.token.supply, w.delegations, w.bank, w.now, w.bank, 0, map[], 0)
  }

  /** The hub's run in a system that started in `w` and is now in `v`. */
  ghost function HubRunOf(w: World, v: World): HubRuns.World {
    HubRuns.Run(HubStart(w), v.log.hub)
  }

  /** A freshly instantiated hub whose deposit covers the token supply, beside a
      fresh reward contract. */
  ghost predicate Initial(w: World) {
    && HubRuns.Initial(HubStart(w))
    && Sum(w.token.balances) == w.token.supply
    && FreshRewards(w)
  }

  /** Any positive deposit starts a system with an empty token. */
  lemma InitialExists(params: HubTypes.Params, validator: string, deposit: nat, hub: Addr) returns (w: World)
    requires deposit > 0
    ensures Initial(w) && w.token == TokenState(map[], 0, hub)
    ensures w.hub == Hub.InitialStorage(params, validator, deposit, 0)
  {
    var h := HubRuns.InitialExists(params, validator, deposit, 0, 0, 0);
    w := World(TokenState(map[], 0, hub), Rewards.INITIAL, h.hub, h.now, h.delegations, 0, 0, 0, 0, EMPTY_LOG);
    assert HubStart(w) == h;
  }

  predicate NotSentByHub(es: seq<MirrorRuns.Event>, hub: Addr) {
    forall i :: 0 <= i < |es| ==> es[i].Submit? ==> es[i].call.sender != hub
  }

  /** One event of the system as the hub sees it. */
  lemma EventIsHubRun(w: World, e: MirrorRuns.Event, start: HubRuns.World, gap: Addr -> int, totalGap: int)
    requires Mirrored(w, gap, totalGap) && HubInStep(w, start) && NotSentByHub([e], w.token.minter)
    ensures HubInStep(MirrorRuns.Next(w, e), start)
    ensures MirrorRuns.Next(w, e).token.minter == w.token.minter
  {
    hide RunStack, Mirrored, HubRuns.Run;
    assert [e][0] == e;
    if e.Submit? {
      if Transaction(w, e.call).Ok? {
        StackIsHubRun(w, [Execute(e.call)], start, gap, totalGap);
      }
    } else {
      var hs := MirrorRuns.HubEventsBetween(e);
      var h := HubRuns.Run(start, w.log.hub);
      HubRunAppend(start, w.log.hub, hs);
      NoEvents(h);
      if |hs| == 1 {
        OneEvent(h, hs[0]);
        assert hs == [hs[0]];
      }
    }
  }

  lemma {:induction false} SystemIsHubRun(
      w: World, es: seq<MirrorRuns.Event>, start: HubRuns.World, gap: Addr -> int, totalGap: int)
    requires Mirrored(w, gap, totalGap) && HubInStep(w, start) && NotSentByHub(es, w.token.minter)
    ensures HubInStep(MirrorRuns.Run(w, es), start)
    decreases |es|
  {
    hide Mirrored, HubInStep, MirrorRuns.Next;
    if |es| > 0 {
      EventIsHubRun(w, es[0], start, gap, totalGap);
      MirrorRuns.NextMirrored(w, es[0], gap, totalGap);
      SystemIsHubRun(MirrorRuns.Next(w, es[0]), es[1..], start, gap, totalGap);
    }
  }

  lemma StartsMirrored(w: World)
    requires Initial(w)
    ensures Mirrored(w, a => BalanceOf(w.token.balances, a), w.token.supply)
  {
    assert RewardRuns.Balances(Rewards.INITIAL) == map[];
  }

  lemma SystemMatchesHub(w: World, es: seq<MirrorRuns.Event>)
    requires Initial(w) && NotSentByHub(es, w.token.minter)
    ensures var v := MirrorRuns.Run(w, es); MatchesHub(v, HubRunOf(w, v))
  {
    hide MirrorRuns.Run, HubRuns.Run, Mirrored, HubRuns.Initial;
    StartsMirrored(w);
    NoEvents(HubStart(w));
    SystemIsHubRun(w, es, HubStart(w), a => BalanceOf(w.token.balances, a), w.token.supply);
  }

  /** In every history of the whole system the hub is where the calls it has seen lead
      with the real token supply; and every token and every open request is backed at
      the stored rate if and only if something is bonded or nothing is claimed. */
  lemma SystemIsBacked(w: World, es: seq<MirrorRuns.Event>)
    requires Initial(w) && NotSentByHub(es, w.token.minter)
    ensures var v := MirrorRuns.Run(w, es);
      && MatchesHub(v, HubRunOf(w, v))
      && (v.hub.state.exchangeRate * (v.token.supply + v.hub.batch.requestedWithFee)
            <= v.hub.state.totalBondAmount * ONE <==>
          v.hub.state.totalBondAmount > 0 || v.token.supply + v.hub.batch.requestedWithFee == 0)
  {
    hide MirrorRuns.Run, HubRuns.Run, HubRuns.Initial;
    SystemMatchesHub(w, es);
    HubTheorems.BackingInvariant(HubStart(w), MirrorRuns.Run(w, es).log.hub);
  }

  /** If every withdrawal the hub has paid came from a covered round, the hub's bank
      holds enough for every released claim, and from a covered round the next
      withdrawal does not fail for lack of funds. */
  lemma SystemIsSolvent(w: World, es: seq<MirrorRuns.Event>, user: Addr)
    requires Initial(w) && NotSentByHub(es, w.token.minter)
    ensures var v := MirrorRuns.Run(w, es);
      HubTheorems.CoveredRun(HubStart(w), v.log.hub) ==>
        && WithdrawRate.Owed(v.hub.waits, v.hub.histories) <= v.bank
        && (HubTheorems.CoveredRound(HubRunOf(w, v)) ==>
          Transaction(v, WithdrawUnbonded(user)) != Err(HubFailed(HubTypes.InsufficientHubBalance)))
  {
    hide MirrorRuns.Run, HubRuns.Run, HubRuns.Initial, HubTheorems.CoveredRun, HubTheorems.CoveredRound;
    hide RunStack, WithdrawRate.Owed, Hub.Withdraw;
    SystemMatchesHub(w, es);
    var v := MirrorRuns.Run(w, es);
    if HubTheorems.CoveredRun(HubStart(w), v.log.hub) {
      HubTheorems.HubSolvency(HubStart(w), v.log.hub, user);
      WithdrawErrors(v, user);
    }
  }

  /** A withdrawal fails as the hub's handler does, or in the bank. */
  lemma WithdrawErrors(w: World, user: Addr)
    ensures var r := Transaction(w, WithdrawUnbonded(user));
      r.Err? && r.error.HubFailed? ==> Hub.Withdraw(w.hub, EnvOf(w), user) == Err(r.error.hub)
  {
    hide RunStack, Hub.Withdraw;
    var m := Execute(WithdrawUnbonded(user));
    assert [m] + [] == [m];
    RunHead(w, m, []);
    if Step(w, m).Ok? {
      var done := Step(w, m).value;
      assert done.1 + [] == [done.1[0]];
      RunLone(done.0, done.1[0]);
    }
  }

  // ----------------------------------------------------- the reward contract

  /** A stack that succeeds leaves the reward contract where the calls it logs lead. */
  lemma {:induction false} StackIsRewardRun(w: World, stack: seq<Message>)
    requires MatchesReward(w, RewardRunOf(w.log)) && RunStack(w, stack).Ok?
    ensures var v := RunStack(w, stack).value; MatchesReward(v, RewardRunOf(v.log))
    decreases StackSize(stack)
  {
    hide Step, MatchesReward, RewardRunOf, MessageSize;
    if |stack| > 0 {
      var done := Step(w, stack[0]).value;
      StepIsRewardRun(w, stack[0]);
      StepShrinks(w, stack[0]);
      StackSizeAppend(done.1, stack[1..]);
      StackIsRewardRun(done.0, done.1 + stack[1..]);
    }
  }

  lemma EventIsRewardRun(w: World, e: MirrorRuns.Event)
    requires MatchesReward(w, RewardRunOf(w.log))
    ensures var v := MirrorRuns.Next(w, e); MatchesReward(v, RewardRunOf(v.log))
  {
    hide RunStack, RewardRuns.Run;
    if e.Submit? {
      if Transaction(w, e.call).Ok? {
        StackIsRewardRun(w, [Execute(e.call)]);
      }
    } else if e.ArriveAtReward? {
      var arrive := RewardRuns.Arrive(e.amount);
      RewardRunAppend(RewardRuns.START, w.log.reward, [arrive]);
      ShortRewardRuns(RewardRunOf(w.log), arrive, arrive);
    } else {
      assert w.log.reward + [] == w.log.reward;
    }
  }

  lemma {:induction false} SystemIsRewardRun(w: World, es: seq<MirrorRuns.Event>)
    requires MatchesReward(w, RewardRunOf(w.log))
    ensures var v := MirrorRuns.Run(w, es); MatchesReward(v, RewardRunOf(v.log))
    decreases |es|
  {
    hide MatchesReward, MirrorRuns.Next, RewardRunOf;
    if |es| > 0 {
      EventIsRewardRun(w, es[0]);
      SystemIsRewardRun(MirrorRuns.Next(w, es[0]), es[1..]);
    }
  }

  ghost predicate FreshRewards(w: World) {
    w.reward == Rewards.INITIAL && w.rewardBank == 0 && w.log == EMPTY_LOG
  }

  lemma FreshIsAccounted(w: World)
    requires FreshRewards(w)
    ensures Accounted(w)
  {
  }

  /** In every history of the whole system the reward contract's bank balance covers
      its pool, the pool covers every credit, and no claim and no update ever fails
      for lack of coins. */
  lemma SystemCoversRewards(w: World, es: seq<MirrorRuns.Event>, a: Addr, to: Option<Addr>, swapped: nat)
    requires FreshRewards(w)
    ensures var v := MirrorRuns.Run(w, es);
      && Sum(RewardRuns.Credits(v.reward)) <= v.reward.state.prevRewardBalance * ONE
      && v.reward.state.prevRewardBalance <= v.rewardBank
      && Transaction(v, ClaimRewards(a, to)) != Err(ClaimFailed(Rewards.InsufficientRewards))
      && Transaction(v, UpdateGlobalIndex(a, swapped)) != Err(UpdateFailed(Rewards.BalanceShrank))
  {
    hide MirrorRuns.Run, RewardRuns.Run, RunStack, Rewards.Claim, RewardRuns.Balances, RewardRuns.Credits, Sum;
    FreshIsAccounted(w);
    SystemIsRewardRun(w, es);
    var v := MirrorRuns.Run(w, es);
    RewardRunInv(v);
    RewardRuns.SubtractionsNeverFail(v.reward, a, 0, RewardRunOf(v.log).dust);
    RunLone(v, Execute(ClaimRewards(a, to)));
    RunLone(v, Execute(UpdateGlobalIndex(a, swapped)));
  }

  lemma RunLone(w: World, m: Message)
    ensures Step(w, m).Err? ==> RunStack(w, [m]) == Err(Step(w, m).error)
    ensures Step(w, m).Ok? && Step(w, m).value.1 == [] ==> RunStack(w, [m]) == Ok(Step(w, m).value.0)
  {
    hide Step;
    assert [m] + [] == [m];
    RunHead(w, m, []);
    if Step(w, m).Ok? && Step(w, m).value.1 == [] {
      MirrorRuns.RunNothing(Step(w, m).value.0);
      assert Step(w, m).value.1 + [] == [];
    }
  }

  /** From an empty token, in every history of the whole system: what an address was
      paid and still has coming is exactly the sum, over all index updates that were
      executed, of the tokens it held at that moment times the coins per token. */
  lemma SystemRewardsTokenHolders(w: World, es: seq<MirrorRuns.Event>, a: Addr)
    requires w.token.balances == map[] && w.token.supply == 0 && FreshRewards(w)
    ensures var v := MirrorRuns.Run(w, es); var h := Rewards.ReadHolder(v.reward, a);
      && h.index <= v.reward.state.globalIndex
      && RewardRuns.Get(v.log.paid, a) * ONE
         + h.pending + BalanceOf(v.token.balances, a) * (v.reward.state.globalIndex - h.index)
         == Earned(v.log.updates, a)
      && RewardRuns.Get(RewardRunOf(v.log).ledger.credits, a) + RewardRuns.Get(v.log.paid, a) * ONE
         == Earned(v.log.updates, a)
  {
    hide MirrorRuns.Run, RewardRuns.Run, Transaction, Earned;
    assert RewardRuns.Balances(w.reward) == map[];
    var none: Addr -> int := _ => 0;
    FreshIsAccounted(w);
    MirrorRuns.RunAccounted(w, es, none, 0);
    MirrorRuns.EmptyStartMirrors(w, es, a, CheckSlashing(a));
    var v := MirrorRuns.Run(w, es);
    RewardRuns.LazyEqualsEager(v.log.reward, a);
    assert RewardRuns.CreditOf(v.reward, a) + RewardRuns.Get(v.log.paid, a) * ONE == Earned(v.log.updates, a);
  }
}
