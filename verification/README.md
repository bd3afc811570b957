# Anchor bAsset contracts: a verified model

Anchor bAsset is a liquid-staking protocol. Users bond coins at the **hub** and get bAsset tokens at an
exchange rate; they unbond in batches that are undelegated together and released together; the
**reward** contract distributes staking rewards to token holders; the **token** tells the reward contract
about every balance change. This project models those three contracts in Dafny and proves what holds over
all their runs.

`dafny verify dfyconfig.toml` checks the whole project.

## How the model is laid out

| file | models |
|---|---|
| `Decimals.dfy`, `Sums.dfy` | fixed-point decimals (10^18 atoms = 1.0, every operation rounds down), signed differences, finite sums |
| `Apportionment.dfy` | how a release round spreads missing or surplus coins over its batches |
| `ExchangeRate.dfy` | the price, nine-digit division, and the arithmetic of backing |
| `Undelegation.dfy` | drawing validators to undelegate from |
| `HubTypes.dfy`, `Hub.dfy`, `WithdrawRate.dfy` | the hub's data and each of its calls as a function on that data |
| `HubContract.dfy` | the hub as a class whose methods and loops update stored items; each is proved to compute the function |
| `HubOutcomes.dfy` | when each hub call succeeds and every value it stores, said apart from the functions that compute them |
| `HubInvariant.dfy`, `HubRuns.dfy`, `HubTheorems.dfy`, `HubArrivals.dfy` | what every hub call keeps, whole runs, the consequences, and which coins a round counts |
| `Rewards.dfy`, `RewardRuns.dfy`, `RewardOutcomes.dfy`, `RewardContract.dfy` | the reward contract as functions, the eager ledger beside it and whole runs, when each call succeeds, and the contract as a class whose invariant is the exact ledger |
| `DecimalText.dfy`, `Tax.dfy` | the fraction taken through text, and the tax on a payout |
| `Token.dfy`, `Execution.dfy` | the token handlers (functions and class) and the depth-first execution of the messages between the three contracts |
| `Earnings.dfy`, `Mirror.dfy`, `MirrorRuns.dfy` | what holders earn by their tokens, and the mirroring of token balances through every cascade and history |
| `JointRuns.dfy` | the three contracts as one system whose histories are hub runs and reward runs |
| `HistoryPaging.dfy` | paging through histories by big-endian keys |

A call is a function from stored data and what the chain reports to either new data or an error; an error is
a failed transaction and changes nothing. The classes hold the same data in fields, run the contracts'
loops, and restore the fields on an error as the chain would. Runs are sequences of events: every hub call by
anyone, and everything the surroundings can do in between. For the hub, coins arrive at the bank balance at
will and leave only by payouts, delegations change arbitrarily (slashing, redelegation), tokens are burnt
directly, parameters and the validator whitelist change, time passes. Random draws are an arbitrary function of the round.

Hub and token amounts are unbounded naturals: a 128-bit overflow panics and reverts, so every successful run
of the contracts is a run of the model. In the reward contract the narrowing from 256 to 128 bits is written
out, because one of the results is that it cannot fail.

### What a run keeps track of

* `overcredit`: by how much release rounds credited more than had arrived. The contract takes the magnitude of
  a difference that can be negative (`unbond.rs:295-297`), so a round can over-credit. The invariant holds for
  *every* run with this term in it. `CreditsAtMostArrivedExactly` and `OvercreditExactly` give the exact condition
  for a round and for a run, `WrapsExactly` says for which batches the subtraction wraps, and
  `EmptyArrivalBlocksPayout` is a run from instantiation whose withdrawal fails because of it.
* `arrived`, `paidOut`, `paidEntries`: coins that came in, coins and wait list entries paid.
* In a history of the whole system, `log`: the calls hub and reward contract have seen, the token balances at each
  index update, the rewards paid, and the coins sent to each address. It is written as messages are executed and read by no contract.

### Promises that hold only on a condition

* A price that every claim could be honoured at: exactly while something is bonded or nothing is claimed
  (`BackingInvariant`). Over an empty bond the contract sets the rate to 1 (`SlashToZeroBreaksBacking`); the next
  bond restores the backing.
* Coins that arrive for a batch are counted when it is released: exactly if nobody is paid after they arrive
  (`ArrivalsCountedExactly`). A payout stores the whole bank balance behind it, so a withdrawal that comes early
  takes later batches' coins into account (`EarlyPayoutTakesLaterCoins`).

### Where code and documentation differ

* `decimal_division` is documented as a / b; it cuts the rate to nine fractional digits first. The model
  follows the code and bounds the difference.
* The token's README lists IncreaseBalance before DecreaseBalance; the handlers send DecreaseBalance first. The
  model follows the code.

## Model

| member | source | states |
|---|---|---|
| `HubTheorems.HubSolvency` | contracts/anchor_basset_hub/src/unbond.rs:147-317 | in every run from instantiation whose paying rounds are covered, the floors owed to all users of released batches sum to at most `prev_hub_balance`, which is within the bank balance; paid never exceeds arrived; the payout of a covered round never fails in `checked_sub` |
| `HubTheorems.PayoutIsCovered` | contracts/anchor_basset_hub/src/unbond.rs:171-189 | in every run, with no side condition: any user's payout is within the bank balance plus the over-credit of past rounds, so a payout fails for lack of funds only after some round over-credited |
| `HubTheorems.OvercreditExactly` | contracts/anchor_basset_hub/src/unbond.rs:251-311 | a run credits more than arrived somewhere if and only if one of its paying rounds is not covered |
| `HubTheorems.ExcessExactly` | contracts/anchor_basset_hub/src/unbond.rs:251-311 | a round that succeeds credits at most what arrived if and only if it is covered, a condition on the expected amounts and the arrival |
| `HubTheorems.CleanRunIsCovered` | contracts/anchor_basset_hub/src/unbond.rs:251-311 | rounds with every batch worth something, some arrival on a shortfall and batches x shortfall within 10^18 are covered; a surplus is unrestricted |
| `HubTheorems.EmptyArrivalBlocksPayout` | contracts/anchor_basset_hub/src/unbond.rs:292-301 | a run from instantiation (wait, unbond everything, wait) in which nothing arrives: the round credits one coin and the withdrawal fails for lack of funds |
| `HubTheorems.BatchLifeCycle` | contracts/anchor_basset_hub/src/unbond.rs:66-122 | in every run histories exist for exactly batches 1 to id-1 with strictly increasing times, the released ones are the prefix up to `last_processed_batch`, and a successful round releases exactly the batches closed by the historical time |
| `HubTheorems.WaitListConservation` | contracts/anchor_basset_hub/src/state.rs:42-73 | in every run the waits of the open batch sum to its requests, the waits of a closed batch plus its paid entries sum to its amount, and only entries of released batches have been paid |
| `HubTheorems.NoEntryPaidTwice` | contracts/anchor_basset_hub/src/state.rs:104-148 | in every run the entries a withdrawal would pay are disjoint from all entries paid before |
| `HubTheorems.BackingInvariant` | packages/basset/src/hub.rs:38-47 | in every state of every run, stored rate x (supply + open requests) is at most the bonded amount if and only if something is bonded or nothing is claimed |
| `HubTheorems.SlashToZeroBreaksBacking` | contracts/anchor_basset_hub/src/contract.rs:319-326 | a run from instantiation in which the only validator is slashed to nothing and the check resets the price to 1 with ten claims on nothing |
| `HubTheorems.UnbondNeverLacksBond` | contracts/anchor_basset_hub/src/unbond.rs:87-98 | in every run, when the slashing check leaves something bonded or nothing is claimed: the `expect` on the bonded amount cannot fail, and if the hub has delegations and all are in the staking denomination the draw from an empty list cannot fail either, whatever is drawn |
| `HubTheorems.EmptyBondClosesNothing` | contracts/anchor_basset_hub/src/unbond.rs:71-98 | the other side: over an empty bond an unbond that succeeds leaves the batch open, or there was nothing in it |
| `HubTheorems.CheckedIsBacked` | contracts/anchor_basset_hub/src/contract.rs:295-330 | in every state that satisfies the invariant of runs, the slashing check hands a backed price to the call if and only if it leaves something bonded or nothing is claimed |
| `HubTheorems.BondIsCovered` | contracts/anchor_basset_hub/src/bond.rs:49-85 | after a bond and its Delegate message the recorded bond is at most the delegations if and only if the hub had delegations to check or had nothing recorded |
| `HubTheorems.UnbondIsCovered` | contracts/anchor_basset_hub/src/unbond.rs:71-116 | the same equivalence after an unbond and its Undelegate messages, whatever validators are drawn |
| `HubTheorems.BondPriceImpact` | contracts/anchor_basset_hub/src/bond.rs:58-77 | in every run, when the slashing check leaves something bonded or nothing is claimed and there are claims after the bond, a bond leaves at least the nine-digit part of the price, so it lowers the price by less than 10^-9 and not at all from a nine-digit price |
| `HubTheorems.BondMintsFairly` | contracts/anchor_basset_hub/src/bond.rs:58-77 | a bond mints at least floor(payment / rate) less the peg fee, exactly the nine-digit quotient at or above the threshold, and adds the payment to the bond |
| `HubTheorems.BondNeverOvershootsPeg` | contracts/anchor_basset_hub/src/bond.rs:60-77 | below the threshold a bond leaves at least as many claims as bonded coins and a price of at most 1 |
| `HubTheorems.UnbondPegRecovery` | contracts/anchor_basset_hub/src/unbond.rs:39-64 | in every run, when the slashing check leaves something bonded, an unbond of a positive amount never lowers the price it left; below the threshold the kept fee leaves at least as many claims as bonded coins and a price of at most 1 |
| `HubTheorems.ReleasedBatchPaysOut` | contracts/anchor_basset_hub/src/unbond.rs:275-305 | in every run, the users of a batch a round releases can together withdraw at most the coins it is credited and, up to one coin per entry and the rounding of the rate, all of them |
| `HubOutcomes.SlashOutcome` | contracts/anchor_basset_hub/src/contract.rs:295-330 | for every state: the check records the smaller of bond and staking-denomination delegations (the bond if there are no delegations); if it fell, the price is the largest at which what is left covers supply + open requests (1 where either is zero); nothing else changes |
| `HubOutcomes.BondedInAdds` | contracts/anchor_basset_hub/src/contract.rs:308-313 | the delegated total is additive over lists and counts a delegation exactly if it is in the staking denomination |
| `HubOutcomes.PaymentIsFirst` | contracts/anchor_basset_hub/src/contract.rs:40-46 | the payment is the first non-empty coin of the denomination, and there is none exactly if no coin qualifies |
| `HubOutcomes.BondOutcome` | contracts/anchor_basset_hub/src/bond.rs:11-77 | for every state: when a bond succeeds; then it mints floor(payment / nine-digit rate) less, below the threshold, the smaller of that amount x fee and the gap between claims and bond; the bond grows by the payment, the price is the new floor, nothing else changes |
| `HubOutcomes.UnbondOutcome` | contracts/anchor_basset_hub/src/unbond.rs:17-122 | for every state: when an unbond succeeds; then the sender's entry of the open batch, and no other, rises by the amount less, below the threshold, the smaller of amount x fee and the gap; the batch closes exactly if more than an epoch has passed since the last closing; every stored value on both sides |
| `HubOutcomes.ProcessOutcome` | contracts/anchor_basset_hub/src/unbond.rs:209-317 | for every state: a round succeeds exactly if every ripe batch can be released; then each gets the largest rate at which its credited coins cover its amount, and nothing else changes but the progress |
| `HubOutcomes.WithdrawOutcome` | contracts/anchor_basset_hub/src/unbond.rs:147-205 | for every state: a withdrawal succeeds exactly if the round does and the user's finished entries are worth something within the bank balance; it pays and removes exactly these and stores the rest of the balance |
| `HubRuns.DelegateRaisesOne` | contracts/anchor_basset_hub/src/bond.rs:79-85 | a Delegate message raises the delegation to its validator by the payment and no other |
| `HubRuns.RunInv` | contracts/anchor_basset_hub/src/contract.rs:114-186 | every event of every run keeps life cycle, wait list books, solvency up to the over-credit, and the price: backed while something is bonded, positive otherwise |
| `HubArrivals.CoinsCountedOnce` | contracts/anchor_basset_hub/src/unbond.rs:183-220 | in every run every coin is counted exactly once: what the rounds of paying withdrawals have counted plus what the next round would count is what arrived |
| `HubArrivals.ArrivalsCountedExactly` | contracts/anchor_basset_hub/src/unbond.rs:183-220 | from any reachable state, such as the one a batch closes in, and over any further events: the next round counts every coin that arrived in between if and only if no withdrawal paid after one of them arrived; otherwise it lacks exactly the coins that arrived before the last payout |
| `HubArrivals.EarlyPayoutTakesLaterCoins` | contracts/anchor_basset_hub/src/unbond.rs:183-220 | a run from instantiation: two batches of ten close, twenty coins arrive, the first user withdraws nineteen before the second batch is ripe, and the second user is credited one |
| `HubRuns.InitialInv` | contracts/anchor_basset_hub/src/contract.rs:58-103 | the state after instantiation with supply at most the deposit satisfies the invariant |
| `HubRuns.InitialExists` | contracts/anchor_basset_hub/src/contract.rs:58-103 | every deposit covering the initial supply gives an initial state, so the theorems about runs are about something |
| `HubRuns.RoundSolvency` | contracts/anchor_basset_hub/src/unbond.rs:209-317 | after a release round the debt is within the bank balance plus all over-credit so far |
| `HubInvariant.SlashKeepsBacking` | contracts/anchor_basset_hub/src/contract.rs:295-330 | the slashing check keeps the price backed if and only if it does not find the bond wiped out under claims |
| `HubInvariant.CloseIsCovered` | contracts/anchor_basset_hub/src/unbond.rs:72-113 | closing a batch undelegates at most the bonded amount, and the unrecomputed rate stays backed |
| `HubInvariant.PegFeeIsExact` | contracts/anchor_basset_hub/src/unbond.rs:41-50 | the fee is the full fraction unless a smaller one closes the gap between claims and bond, then it is the gap; none at or above the threshold |
| `HubInvariant.CloseExpectsUndelegation` | contracts/anchor_basset_hub/src/unbond.rs:74-112 | what a release round will expect for a batch is what closing it undelegates and takes off the bond |
| `HubInvariant.RequestConserves` | contracts/anchor_basset_hub/src/state.rs:42-57 | booking a request keeps the wait list books |
| `HubInvariant.PayConserves` | contracts/anchor_basset_hub/src/state.rs:60-73 | a payout moves exactly the user's released entries from waiting to paid, none of which was paid before |
| `HubInvariant.ProcessKeepsLifecycle` | contracts/anchor_basset_hub/src/unbond.rs:222-310 | a round releases exactly the ripe batches and changes no amount, no time, no earlier rate and no wait |
| `HubInvariant.CloseKeepsLifecycle` | contracts/anchor_basset_hub/src/unbond.rs:100-115 | a closed batch gets the newest time and extends the histories by one |
| `WithdrawRate.ProcessOwes` | contracts/anchor_basset_hub/src/unbond.rs:256-310 | a round raises the sum of all users' floors by at most the sum of the per-batch actual amounts |
| `WithdrawRate.BatchOwesAtMostActual` | contracts/anchor_basset_hub/src/unbond.rs:299-305 | at the new withdraw rate the waiting users of a batch together get at most the batch's actual amount |
| `WithdrawRate.ReleasedRate` | contracts/anchor_basset_hub/src/unbond.rs:300-301 | the new withdraw rate is the largest at which the credited coins cover the batch's amount |
| `WithdrawRate.BatchPaysNearlyActual` | contracts/anchor_basset_hub/src/unbond.rs:299-305 | the users' floors sum to at least the credited coins, less one coin per entry and the rounding of the rate |
| `WithdrawRate.RipeEnd` | contracts/anchor_basset_hub/src/unbond.rs:227-249 | both loops stop at the first batch that is missing, too young or released, having passed only ripe ones |
| `Apportionment.ApportionmentBounds` | contracts/anchor_basset_hub/src/unbond.rs:251-311 | for any batches and any arrival A, the credited sum is A when A is the expected total, within [A-n+2w, A+2w+rounding] on a shortfall with w wrapped subtractions, within [A-2n-rounding, A-n] on a surplus |
| `Apportionment.ActualIsProportional` | contracts/anchor_basset_hub/src/unbond.rs:279-298 | every single batch is credited expected x arrived / total, up to one coin (two on a surplus) and the rounding of its weight, except where the subtraction wraps |
| `Apportionment.CreditsAtMostArrivedExactly` | contracts/anchor_basset_hub/src/unbond.rs:256-298 | for any batches and any arrival, the credited sum is at most the arrival if and only if, on a shortfall, the difference plus twice the wrapped batches is at most the shares plus one per batch |
| `Apportionment.CleanIsCovered` | contracts/anchor_basset_hub/src/unbond.rs:279-298 | every batch worth something, some arrival and n x shortfall within 10^18 meet that condition |
| `Apportionment.CleanRound` | contracts/anchor_basset_hub/src/unbond.rs:279-298 | such a round, with n x difference within 10^18 on a surplus too, credits a sum in [A-n, A], [A-2n, A] or exactly A |
| `Apportionment.WrapsExactly` | contracts/anchor_basset_hub/src/unbond.rs:292-297 | the shortfall subtraction goes below zero exactly for worthless batches, or with no arrival for batches whose weight is exact; such a batch is credited one coin |
| `Apportionment.EmptyArrivalExactly` | contracts/anchor_basset_hub/src/unbond.rs:280-297 | with no arrival nothing is credited if and only if for every batch u x 10^18 modulo the total is positive and at most 10^18 |
| `Apportionment.LoneBatchWithoutArrival` | contracts/anchor_basset_hub/src/unbond.rs:292-297 | a single batch without arrival is always credited one coin |
| `Apportionment.WorthlessBatchOverCredits` | contracts/anchor_basset_hub/src/unbond.rs:292-297 | a concrete round with arrivals and one worthless batch that credits more than arrived |
| `Decimals.FromSubtraction` | packages/signed_integers/src/signed_integer.rs:13-24 | magnitude and sign denote the difference, negative exactly when the minuend is smaller |
| `ExchangeRate.DecimalDivisionClosedForm` | contracts/anchor_basset_hub/src/math.rs:6-9 | division succeeds exactly for rates of at least 10^-9 and is the floor of the quotient by the nine-digit rate |
| `ExchangeRate.DecimalDivisionBounds` | contracts/anchor_basset_hub/src/math.rs:6-9 | the result lies between floor(a/b) and a/(b - 10^-9), and is floor(a/b) for nine-digit b |
| `ExchangeRate.BondImpact` | contracts/anchor_basset_hub/src/bond.rs:59-77 | minting at most the nine-digit quotient keeps the recomputed price at or above the nine-digit price |
| `ExchangeRate.CloseKeepsBacking` | contracts/anchor_basset_hub/src/unbond.rs:74-98 | floor(requested x rate) is within the bond, and what is left backs the other claims |
| `ExchangeRate.RecomputedRateIsBacked` | packages/basset/src/hub.rs:39-46 | a recomputed rate is backed if and only if something is bonded or nothing is claimed |
| `Undelegations.PickSucceedsIff` | contracts/anchor_basset_hub/src/unbond.rs:343-364 | for every sequence of draws, undelegation succeeds if and only if the delegations cover the claim |
| `Undelegations.PickIsExact` | contracts/anchor_basset_hub/src/unbond.rs:343-364 | the messages are positive, sum to the claim, name each validator at most once and stay within its delegation |
| `Undelegations.PickLowersTotal` | contracts/anchor_basset_hub/src/unbond.rs:343-365 | once executed, the messages lower the delegated total by exactly the claim |
| `Undelegations.PickInDrawOrder` | contracts/anchor_basset_hub/src/unbond.rs:343-364 | whichever validator is drawn at a place loses its whole delegation or, if that is less, what the ones drawn before it left of the claim |
| `Undelegations.DrawOrderIsPermutation` | contracts/anchor_basset_hub/src/unbond.rs:343-347 | the draws without replacement reach every delegation exactly once |
| `Undelegations.PickValidator` | contracts/anchor_basset_hub/src/unbond.rs:319-366 | the loop over the shrinking delegation list computes the specified draws |
| `HubContracts.HubContract.Instantiate` | contracts/anchor_basset_hub/src/contract.rs:31-103 | fails without a positive deposit, otherwise creates the contract with price 1, the deposit as bond, batch 1 open and empty, and the first epoch starting now |
| `HubContracts.HubContract.Slashing` | contracts/anchor_basset_hub/src/contract.rs:295-330 | sums the delegations of the staking denomination and, if less than recorded, lowers the bond and recomputes the rate |
| `HubContracts.HubContract.UpdateExchangeRate` | packages/basset/src/hub.rs:39-46 | the new rate is the largest at which the bond covers the claims, and is backed if and only if something is bonded or nothing is claimed |
| `HubContracts.HubContract.ExecuteBond` | contracts/anchor_basset_hub/src/bond.rs:11-115 | all branches and errors of a bond, the new state and the minted amount; a failure leaves the state unchanged |
| `HubContracts.HubContract.ExecuteUnbond` | contracts/anchor_basset_hub/src/unbond.rs:17-145 | all branches and errors of an unbond, the new state, the booked amount and the undelegations |
| `HubContracts.HubContract.CountRipe` | contracts/anchor_basset_hub/src/unbond.rs:225-249 | the first loop counts the ripe batches and sums their expected coins |
| `HubContracts.HubContract.ReleaseRipe` | contracts/anchor_basset_hub/src/unbond.rs:256-310 | the second loop, reading the histories it is changing, visits the same batches and stores the new rate of each |
| `HubContracts.HubContract.ActualOfBatch` | contracts/anchor_basset_hub/src/unbond.rs:275-298 | the per-batch arithmetic with its corrections by one, and exactly when it fails |
| `HubContracts.HubContract.ProcessWithdrawRate` | contracts/anchor_basset_hub/src/unbond.rs:209-317 | both loops together and the stored state after them |
| `HubContracts.HubContract.GetFinishedAmount` | contracts/anchor_basset_hub/src/state.rs:129-148 | the walk over a user's entries, in any order, sums the floors of the released ones |
| `HubContracts.HubContract.GetUnbondBatches` | contracts/anchor_basset_hub/src/state.rs:104-123 | collects exactly the user's released batches |
| `HubContracts.HubContract.RemoveUnbondWaitList` | contracts/anchor_basset_hub/src/state.rs:60-73 | removes exactly the given batches of the user |
| `HubContracts.HubContract.StoreUnbondWaitList` | contracts/anchor_basset_hub/src/state.rs:42-57 | raises the total of the batch by the amount and leaves every other batch total and every other entry alone |
| `HubContracts.HubContract.ExecuteWithdrawUnbonded` | contracts/anchor_basset_hub/src/unbond.rs:147-205 | release round, payout, removal of the paid entries and new `prev_hub_balance`; a failure restores everything |
| `RewardRuns.LazyEqualsEager` | contracts/anchor_basset_reward/src/user.rs:80-171 | in every run, pending rewards plus balance x (global index - index) equals the credit in a ledger that credits every holder at every update, and the contract has paid each address what the ledger has |
| `RewardRuns.RewardSolvency` | contracts/anchor_basset_reward/src/global.rs:78-94 | in every run pool x 10^18 equals all credits plus the division remainders, the bank covers the pool, no index runs ahead, and no subtraction in claim, decrease or update fails |
| `RewardRuns.UpdateExact` | contracts/anchor_basset_reward/src/global.rs:84-94 | an update gives every holder balance x floor(claimed / total) and leaves a remainder smaller than the total balance |
| `RewardRuns.ClaimExact` | contracts/anchor_basset_reward/src/user.rs:37-56 | a claim pays the whole units of the credit, keeps the fraction, and takes exactly that from the pool |
| `RewardRuns.ClaimSpendsReward` | contracts/anchor_basset_reward/src/user.rs:46-67 | in every run, coin and tax of a claim together take the whole units of the credit from the bank, up to less than two coins and the tax on one |
| `RewardOutcomes.IncreaseSucceedsIff` | contracts/anchor_basset_reward/src/user.rs:80-123 | an increase succeeds exactly if the token sends it, the holder's credit can be settled in 128 bits and the new balance and total fit |
| `RewardOutcomes.DecreaseSucceedsIff` | contracts/anchor_basset_reward/src/user.rs:125-171 | in exact books a decrease succeeds exactly if the token sends it, the holder can be settled and has that balance |
| `RewardOutcomes.ClaimSucceedsIff` | contracts/anchor_basset_reward/src/user.rs:20-56 | in exact books a claim succeeds exactly if the holder can be settled and has a whole unit coming |
| `RewardOutcomes.UpdateSucceedsIff` | contracts/anchor_basset_reward/src/global.rs:57-94 | an update succeeds exactly if the hub sends it, somebody holds tokens, the balance has not shrunk and the index fits; the index rises by the floor of coins / total, and only it and the stored balance change |
| `RewardRuns.LifetimeIgnoresSettling` | contracts/anchor_basset_reward/src/user.rs:20-171 | two runs that distribute the same coins over the same transfers give every holder the same lifetime total, however often anyone claims or settles |
| `RewardRuns.QueryIsWhatClaimPays` | contracts/anchor_basset_reward/src/user.rs:173-185 | in every run the accrued-rewards query returns what the ledger owes in whole units and what a claim pays, and a positive answer means the claim succeeds |
| `RewardRuns.NoNarrowingOverflow` | contracts/anchor_basset_reward/src/math.rs:5-26 | in every run with balance and pool below 2^128 / 10^18, no narrowing in claim, increase or decrease fails |
| `RewardRuns.AccruedIsCredit` | contracts/anchor_basset_reward/src/user.rs:214-224 | the 256-bit product is exact, and settling succeeds exactly if balance, index difference and credit fit in 128 bits |
| `RewardRuns.RunInv` | contracts/anchor_basset_reward/src/contract.rs:44-63 | every event keeps exact books, agreement with the ledger and a covering bank balance |
| `RewardContracts.RewardContract.ExecuteClaimRewards` | contracts/anchor_basset_reward/src/user.rs:20-78 | pays the whole units of the sender's credit, less the tax, to the named recipient or else to the sender, keeps the fraction (taken through text), keeps the exact books, and is never refused by the pool |
| `RewardContracts.RewardContract.ExecuteIncreaseBalance` | contracts/anchor_basset_reward/src/user.rs:80-123 | raises one balance and the total, changes nobody's reward, and keeps the exact books |
| `RewardContracts.RewardContract.ExecuteDecreaseBalance` | contracts/anchor_basset_reward/src/user.rs:125-171 | lowers one balance and the total, changes nobody's reward, keeps the exact books, and the total never underflows |
| `RewardContracts.RewardContract.ExecuteUpdateGlobalIndex` | contracts/anchor_basset_reward/src/global.rs:57-103 | credits every address balance x floor(claimed / total), adds less than the total balance to the dust, and keeps the exact books |
| `DecimalText.GetDecimalsIsRemainder` | contracts/anchor_basset_reward/src/user.rs:227-238 | for every decimal, print, split at the dot and re-parse gives exactly the value modulo 10^18 |
| `DecimalText.WholeAndFractionRebuild` | contracts/anchor_basset_reward/src/user.rs:40-54 | whole units paid plus the stored fraction rebuild the value |
| `Tax.TaxFits` | packages/basset/src/tax_querier.rs:7-26 | the coin sent plus the chain's tax on it is at most the gross reward, for every amount, rate and cap, and falls short of it by less than two coins and the tax on one; by nothing where the tax exceeds the cap |
| `Tax.CoinIsLargest` | packages/basset/src/tax_querier.rs:7-26 | the coin sent is the largest whose tax still fits beside it in the reward; where the cap or more would be taken, exactly the cap is |
| `Tax.ComputeTax` | packages/basset/src/tax_querier.rs:7-18 | the tax is at most the amount and at most the cap, so neither subtraction fails |
| `MirrorRuns.RunMirrored` | contracts/anchor_basset_token/src/handler.rs:17-250 | over every history of transactions with depth-first cascades, token balance minus reward balance of each address never changes |
| `MirrorRuns.EmptyStartMirrors` | contracts/anchor_basset_token/src/handler.rs:17-250 | from an empty token the balances are equal for ever, the reward total is the supply, and no transaction fails on a decrease the reward contract cannot subtract |
| `MirrorRuns.BondCascade` | contracts/anchor_basset_hub/src/bond.rs:79-106 | Bond, Delegate and Mint in one transaction raise only the sender's balance and the supply, by what the hub mints, and delegate the payment; besides a mint of nothing, which always fails, and an overflow nothing after the hub's acceptance can fail |
| `MirrorRuns.WithdrawCascade` | contracts/anchor_basset_hub/src/unbond.rs:183-204 | a withdrawal transaction succeeds exactly if the hub accepts it, and the coins go to the sender and nobody else |
| `MirrorRuns.ClaimCascade` | contracts/anchor_basset_reward/src/user.rs:24-67 | a claim transaction succeeds exactly if the reward contract accepts it, and the reward less the tax goes to the named recipient, or else to the sender, and nobody else |
| `MirrorRuns.UnbondCascade` | contracts/anchor_basset_hub/src/unbond.rs:132-137 | Send, Receive, Unbond and Burn in one transaction lower only the sender's balance and the supply; besides an overflow nothing after the hub's acceptance can fail |
| `MirrorRuns.ReceiveFirstWouldFail` | contracts/anchor_basset_token/src/handler.rs:114-136 | with the receive message before the two reports the nested burn would be refused |
| `JointRuns.SystemIsBacked` | contracts/anchor_basset_hub/src/contract.rs:114-212 | in every history of the whole system the hub is where the calls it has seen lead with the real token supply, and stored rate x (token supply + open requests) is at most the bonded amount if and only if something is bonded or there are no claims |
| `JointRuns.SystemIsSolvent` | contracts/anchor_basset_hub/src/unbond.rs:147-205 | in every history of the whole system in which the hub's paying rounds were covered, the hub's bank balance covers everything owed for released batches, and a withdrawal from a covered round does not fail for lack of funds |
| `JointRuns.StackIsHubRun` | contracts/anchor_basset_hub/src/unbond.rs:124-144 | a transaction with all it cascades into changes hub data, delegations, bank and token supply exactly as the hub calls it logs, run in that order |
| `JointRuns.SystemRewardsTokenHolders` | contracts/anchor_basset_reward/src/user.rs:80-171 | in every history of the whole system from an empty token, what an address was paid plus what it has coming is exactly the sum, over all index updates executed, of its token balance at that moment x floor(coins / token supply at that moment) |
| `JointRuns.SystemCoversRewards` | contracts/anchor_basset_reward/src/user.rs:46-63 | in every history of the whole system, whatever the token starts with, the reward contract's bank balance covers its pool, the pool covers all credits, and no claim and no update fails for lack of coins |
| `Earnings.StepCredits` | contracts/anchor_basset_reward/src/global.rs:78-94 | an index update raises everyone's credit by token balance x floor(coins / supply), a claim turns the claimer's whole units into a payment, and no other message changes anyone's credit |
| `Earnings.StepAccounted` | contracts/anchor_basset_reward/src/user.rs:20-171 | every message keeps paid plus credit equal to what the updates gave each address, provided an update finds the token balances mirrored |
| `MirrorRuns.RunAccounted` | contracts/anchor_basset_token/src/handler.rs:17-250 | that proviso holds wherever an update is executed, also deep in a cascade: mirrored systems stay accounted for over every history |
| `JointRuns.StackIsRewardRun` | contracts/anchor_basset_reward/src/contract.rs:44-63 | a transaction changes the reward contract, its bank balance and what it has paid to each address as the reward calls it logs |
| `Mirror.RunIsFaithful` | contracts/anchor_basset_token/src/handler.rs:17-250 | any stack of calls, whatever token, bond, slashing, withdrawal, claim and index calls receiving contracts react with, ends mirrored or fails for another reason than a decrease the reward contract cannot subtract or an unbond beyond the supply; where the balances were equal, what every address earned stays accounted for |
| `Mirror.HandleParts` | contracts/anchor_basset_token/src/handler.rs:30-249 | each of the seven handlers moves balances and reports exactly that move, decrease before increase before receive |
| `Mirror.StepReceiveIsFaithful` | contracts/anchor_basset_hub/src/contract.rs:189-212 | a receiver that holds the tokens passes on only calls; the hub never sees more than the supply |
| `Execution.StepShrinks` | contracts/anchor_basset_token/src/handler.rs:17-250 | every message causes strictly smaller messages, so cascades end |
| `Token.TokenContract.ExecuteTransfer` | contracts/anchor_basset_token/src/handler.rs:17-53 | succeeds exactly for a positive amount within the balance; then two balances move by the amount, all others, the supply and their agreement stay, and the reports are DecreaseBalance, IncreaseBalance |
| `Token.TokenContract.ExecuteBurn` | contracts/anchor_basset_token/src/handler.rs:55-77 | succeeds exactly for a positive amount within balance and supply; then one balance and the supply shrink, everything else stays, and the report is DecreaseBalance |
| `Token.TokenContract.ExecuteMint` | contracts/anchor_basset_token/src/handler.rs:79-100 | succeeds exactly for a positive amount sent by the minter; then one balance and the supply grow, everything else stays, and the report is IncreaseBalance |
| `Token.TokenContract.ExecuteSend` | contracts/anchor_basset_token/src/handler.rs:102-142 | as a transfer to the contract, with the receive message after both reports |
| `Token.TokenContract.ExecuteTransferFrom` | contracts/anchor_basset_token/src/handler.rs:144-180 | the effect of a transfer on the owner's balance |
| `Token.TokenContract.ExecuteBurnFrom` | contracts/anchor_basset_token/src/handler.rs:182-206 | the effect of a burn on the owner's balance |
| `Token.TokenContract.ExecuteSendFrom` | contracts/anchor_basset_token/src/handler.rs:208-250 | the effect of a send on the owner's balance, with the spender as the receiver's sender |
| `HistoryPaging.PagingIsComplete` | contracts/anchor_basset_hub/src/state.rs:265-282 | asking repeatedly from the last id lists every history exactly once in increasing id, if and only if the limit is at least one or there is none |
| `HistoryPaging.PageIsExact` | contracts/anchor_basset_hub/src/state.rs:265-290 | a page is the next ids above `start` in increasing order: the limit or ten, at most a hundred, fewer only if there are no more |
| `HistoryPaging.PageStartsAfter` | contracts/anchor_basset_hub/src/state.rs:284-290 | the key of `start` followed by a byte 1 starts a page at exactly the ids above `start` |
| `HistoryPaging.KeyOrder` | contracts/anchor_basset_hub/src/state.rs:237-246 | byte order of big-endian batch ids is numeric order |
| `HistoryPaging.AllUnbondHistory` | contracts/anchor_basset_hub/src/state.rs:265-282 | the walk over the stored keys returns the specified page |

## Left out

- HubTheorems.HubSolvency: assumes that each paying round is covered, because a round that is not credits more than arrived (`OvercreditExactly`); `PayoutIsCovered` states the same without the assumption and with the over-credit as a term.
- RewardRuns.LifetimeIgnoresSettling: compares runs that distribute the same coins; how much tax rounding leaves in the bank, and so reaches the next update, does depend on the claims.
- Token.TokenContract.ExecuteTransferFrom: allowances are not modelled; any sender may act for any owner.
- Token.TokenContract.ExecuteBurnFrom: allowances are not modelled; any sender may act for any owner.
- Token.TokenContract.ExecuteSendFrom: allowances are not modelled; any sender may act for any owner.
- HubContracts.HubContract.ExecuteBond: 128-bit overflow of hub and token amounts is not modelled; it reverts the transaction.
- JointRuns.SystemRewardsTokenHolders: starts from a token without initial balances, because instantiation does not report them to the reward contract; they stay a constant gap (`RunMirrored`) and earn nothing.
- The CW20 library beyond balances and supply, initial token balances other than as a constant gap, and marketing or minter changes.
- Message authorisation other than "sent by the token", "sent by the hub" and "sent by the minter"; address validation and canonicalisation.
- JointRuns.SystemIsBacked: here and in `SystemIsSolvent` transactions signed by the hub's own address are excluded; the hub only sends what its handlers send, and those messages are in the cascades.
- The airdrop registry, `claim_airdrop` and `swap_hook`: they build messages for contracts outside this repository.
- `execute_swap` and the oracle query: reward coins simply arrive.
- The owner's configuration calls: parameters and the whitelist change arbitrarily in runs, redelegation is an arbitrary change of delegations.
- The `WithdrawableUnbonded` query, `query_holders` paging and the other read-only queries.
- `last_index_modification`, which nothing reads.
- The XorShift generator: draws are arbitrary.
