/** What the index updates of a history owe to each address, by the tokens held at
    each of them, and that the reward contract's books say the same. */
module Earnings {
  import opened Decimals
  import opened Token
  import opened Execution
  import Hub
  import HubRuns
  import Rewards
  import RewardRuns

  /** What the updates give to an address, in atoms. */
  function Earned(updates: seq<IndexUpdate>, a: Addr): nat {
    if |updates| == 0 then 0
    else Earned(updates[..|updates| - 1], a) + EarnedBy(updates[|updates| - 1], a)
  }

  function EarnedBy(u: IndexUpdate, a: Addr): nat {
    if u.supply == 0 then 0 else BalanceOf(u.balances, a) * FromRatio(u.claimed, u.supply)
  }

  /** Every address was paid, or still has coming, exactly what it earned. */
  ghost predicate EarningsKept(w: World) {
    forall a :: RewardRuns.CreditOf(w.reward, a) + RewardRuns.Get(w.log.paid, a) * ONE == Earned(w.log.updates, a)
  }

  ghost function RewardRunOf(log: Log): RewardRuns.World {
    RewardRuns.Run(RewardRuns.START, log.reward)
  }

  /** The reward contract is where the calls it has seen lead. */
  ghost predicate MatchesReward(w: World, r: RewardRuns.World) {
    r.reward == w.reward && r.bank == w.rewardBank && r.paid == w.log.paid
  }

  ghost predicate Accounted(w: World) {
    MatchesReward(w, RewardRunOf(w.log)) && EarningsKept(w)
  }

  // -------------------------------------------------- the reward contract's run

  lemma {:induction false} RewardRunAppend(r: RewardRuns.World, a: seq<RewardRuns.Event>, b: seq<RewardRuns.Event>)
    ensures RewardRuns.Run(r, a + b) == RewardRuns.Run(RewardRuns.Run(r, a), b)
    decreases |a|
  {
    hide RewardRuns.Next;
    if |a| == 0 {
      assert a + b == b;
    } else {
      assert (a + b)[1..] == a[1..] + b && (a + b)[0] == a[0];
      RewardRunAppend(RewardRuns.Next(r, a[0]), a[1..], b);
    }
  }

  lemma ShortRewardRuns(r: RewardRuns.World, a: RewardRuns.Event, b: RewardRuns.Event)
    ensures RewardRuns.Run(r, []) == r
    ensures RewardRuns.Run(r, [a]) == RewardRuns.Next(r, a)
    ensures RewardRuns.Run(r, [a, b]) == RewardRuns.Next(RewardRuns.Next(r, a), b)
  {
    hide RewardRuns.Next;
    assert [a][1..] == [] && [a, b][1..] == [b] && [b][1..] == [];
    assert RewardRuns.Run(RewardRuns.Next(r, a), [b]) == RewardRuns.Next(RewardRuns.Next(r, a), b);
  }

  lemma EffectIsRewardRun(w: World, m: Message, r: RewardRuns.World)
    requires MatchesReward(w, r) && Step(w, m).Ok?
    ensures MatchesReward(Step(w, m).value.0, RewardRuns.Run(r, RewardEvents(w, m)))
  {
    hide Hub.Bond, Hub.Unbond, Hub.Withdraw, Hub.Slash, Handle, RewardRuns.Run, RewardRuns.LedgerNext;
    hide Rewards.Increase, Rewards.Decrease, Rewards.Claim, Rewards.UpdateGlobalIndex, RewardRuns.BankAfterClaim;
    hide HubEvents, Updates, WithdrawnAfter, ReceivedAfter, HubRuns.Delegate, HubRuns.Undelegated;
    var es := RewardEvents(w, m);
    ShortRewardRuns(r, if |es| > 0 then es[0] else RewardRuns.Update, RewardRuns.Update);
  }

  /** Every message changes the reward contract as the reward events it logs do. */
  lemma StepIsRewardRun(w: World, m: Message)
    requires MatchesReward(w, RewardRunOf(w.log)) && Step(w, m).Ok?
    ensures var v := Step(w, m).value.0; MatchesReward(v, RewardRunOf(v.log))
  {
    hide Perform, MatchesReward, RewardRuns.Run, RewardEvents, HubEvents, Updates;
    hide PaidAfter, WithdrawnAfter, ReceivedAfter;
    EffectIsRewardRun(w, m, RewardRunOf(w.log));
    RewardRunAppend(RewardRuns.START, w.log.reward, RewardEvents(w, m));
  }

  lemma RewardRunInv(w: World)
    requires MatchesReward(w, RewardRunOf(w.log))
    ensures RewardRuns.IndexesBehind(w.reward) && RewardRuns.Exact(w.reward, RewardRunOf(w.log).dust)
    ensures w.reward.state.prevRewardBalance <= w.rewardBank
  {
    hide RewardRuns.Run, RewardRuns.Agree, RewardRuns.PaidAlike, RewardRuns.Balances, RewardRuns.Credits;
    RewardRuns.StartInv();
    RewardRuns.RunInv(RewardRuns.START, w.log.reward);
  }

  // ------------------------------------------------------ what a message earns

  /** Token balances and supply are what the reward contract believes them to be. */
  ghost predicate TokensMatch(w: World) {
    && w.token.supply == w.reward.state.totalBalance
    && forall a :: BalanceOf(w.token.balances, a) == Rewards.ReadHolder(w.reward, a).balance
  }

  predicate IsUpdate(m: Message) {
    m.Execute? && m.call.UpdateGlobalIndex?
  }

  predicate IsClaimBy(m: Message, a: Addr) {
    m.Execute? && m.call.ClaimRewards? && m.call.sender == a
  }

  /** An update raises the credit of every address by its tokens times the coins per
      token; a claim turns whole units of the claimer's credit into a payment; no
      other message changes anyone's credit. */
  lemma StepCredits(w: World, m: Message, a: Addr)
    requires MatchesReward(w, RewardRunOf(w.log)) && Step(w, m).Ok? && (IsUpdate(m) ==> TokensMatch(w))
    ensures var v := Step(w, m).value.0;
      var before, after := RewardRuns.CreditOf(w.reward, a), RewardRuns.CreditOf(v.reward, a);
      && (IsUpdate(m) ==>
        var claimed := w.rewardBank + m.call.swapped - w.reward.state.prevRewardBalance;
        && claimed >= 0 && w.token.supply > 0
        && v.log.updates == w.log.updates + [IndexUpdate(w.token.balances, w.token.supply, claimed)]
        && after == before + BalanceOf(w.token.balances, a) * FromRatio(claimed, w.token.supply)
        && v.log.paid == w.log.paid)
      && (!IsUpdate(m) ==> v.log.updates == w.log.updates)
      && (IsClaimBy(m, a) ==>
        after == before % ONE && RewardRuns.Get(v.log.paid, a) == RewardRuns.Get(w.log.paid, a) + before / ONE)
      && (!IsUpdate(m) && !IsClaimBy(m, a) ==>
        after == before && RewardRuns.Get(v.log.paid, a) == RewardRuns.Get(w.log.paid, a))
  {
    hide Hub.Bond, Hub.Unbond, Hub.Withdraw, Hub.Slash, Handle, HubEvents, RewardEvents, WithdrawnAfter, ReceivedAfter;
    hide HubRuns.Delegate, HubRuns.Undelegated, RewardRunOf, RewardRuns.Credit, RewardRuns.Exact;
    RewardRunInv(w);
    match m
    case DecreaseBalance(b, amount) => RewardRuns.DecreaseTransfers(w.reward, b, amount);
    case IncreaseBalance(b, amount) => RewardRuns.IncreaseTransfers(w.reward, b, amount);
    case Execute(ClaimRewards(b, _)) => ClaimCredits(w.reward, b, a, RewardRunOf(w.log).dust);
    case Execute(UpdateGlobalIndex(_, swapped)) =>
      UpdateCredits(w.reward, w.rewardBank + swapped, a, RewardRunOf(w.log).dust);
    case _ =>
  }

  lemma ClaimCredits(s: Rewards.Storage, b: Addr, a: Addr, dust: nat)
    requires RewardRuns.Exact(s, dust) && Rewards.Claim(s, b).Ok?
    ensures var done := Rewards.Claim(s, b).value;
      && done.rewards == RewardRuns.CreditOf(s, b) / ONE
      && RewardRuns.CreditOf(done.storage, a) ==
        if a == b then RewardRuns.CreditOf(s, a) % ONE else RewardRuns.CreditOf(s, a)
  {
    hide RewardRuns.Credit, RewardRuns.Exact, Rewards.Accrued, Times;
    RewardRuns.ClaimExact(s, b, dust);
  }

  lemma UpdateCredits(s: Rewards.Storage, balance: nat, a: Addr, dust: nat)
    requires RewardRuns.Exact(s, dust) && Rewards.UpdateGlobalIndex(s, true, balance).Ok?
    ensures s.state.totalBalance > 0 && s.state.prevRewardBalance <= balance
    ensures RewardRuns.CreditOf(Rewards.UpdateGlobalIndex(s, true, balance).value, a) ==
      RewardRuns.CreditOf(s, a) + Rewards.ReadHolder(s, a).balance *
        FromRatio(balance - s.state.prevRewardBalance, s.state.totalBalance)
  {
    hide RewardRuns.Credit, RewardRuns.Exact, FromRatio;
    RewardRuns.UpdateExact(s, balance, dust);
  }

  lemma EarnedAppend(updates: seq<IndexUpdate>, u: IndexUpdate, a: Addr)
    ensures Earned(updates + [u], a) == Earned(updates, a) + EarnedBy(u, a)
  {
    assert (updates + [u])[..|updates|] == updates;
  }

  /** Every message keeps the accounts, provided an index update finds the token
      balances mirrored. */
  lemma StepAccounted(w: World, m: Message)
    requires Accounted(w) && Step(w, m).Ok? && (IsUpdate(m) ==> TokensMatch(w))
    ensures Accounted(Step(w, m).value.0)
  {
    hide Step, MatchesReward, RewardRunOf, RewardRuns.CreditOf, Earned, TokensMatch, FromRatio;
    var v := Step(w, m).value.0;
    StepIsRewardRun(w, m);
    forall a: Addr
      ensures RewardRuns.CreditOf(v.reward, a) + RewardRuns.Get(v.log.paid, a) * ONE == Earned(v.log.updates, a)
    {
      StepCredits(w, m, a);
      assert RewardRuns.CreditOf(w.reward, a) + RewardRuns.Get(w.log.paid, a) * ONE == Earned(w.log.updates, a);
      if IsUpdate(m) {
        EarnedAppend(w.log.updates, v.log.updates[|w.log.updates|], a);
      }
    }
  }

  /** Data the accounts do not read. */
  lemma SameAccounts(w: World, v: World)
    requires Accounted(w) && v.reward == w.reward && v.rewardBank == w.rewardBank
    requires v.log == w.log.(hub := v.log.hub)
    ensures Accounted(v)
  {
    hide RewardRuns.Run, RewardRuns.CreditOf, Earned;
  }
}
