/** Whole runs of the reward contract beside a simple ledger that credits every
    holder at every update. */
module RewardRuns {
  import opened Decimals
  import opened Sums
  import opened Tax
  import opened Rewards

  // ----------------------------------------------------------- eager ledger

  /** Balances, unpaid credit in atoms and whole units paid, per address. */
  datatype Ledger = Ledger(balances: map<Addr, nat>, credits: map<Addr, nat>, paid: map<Addr, nat>)

  function Get(m: map<Addr, nat>, a: Addr): nat {
    if a in m then m[a] else 0
  }

  datatype LedgerEvent =
    | Distribute(claimed: nat)
    | Deposit(a: Addr, amount: nat)
    | Remove(a: Addr, amount: nat)
    | Payout(a: Addr)

  /** Credit every holder with balance x floor(claimed / total). */
  ghost function Distributed(l: Ledger, claimed: nat): Ledger {
    var total := Sum(l.balances);
    if total == 0 then l
    else l.(credits := map a | a in l.balances.Keys + l.credits.Keys ::
      Get(l.credits, a) + Get(l.balances, a) * FromRatio(claimed, total))
  }

  function PaidOut(l: Ledger, a: Addr): Ledger {
    var credit := Get(l.credits, a);
    l.(credits := l.credits[a := credit % ONE], paid := l.paid[a := Get(l.paid, a) + credit / ONE])
  }

  ghost function LedgerNext(l: Ledger, e: LedgerEvent): Ledger {
    match e
    case Distribute(claimed) => Distributed(l, claimed)
    case Deposit(a, amount) => l.(balances := l.balances[a := Get(l.balances, a) + amount])
    case Remove(a, amount) =>
      if amount <= Get(l.balances, a) then l.(balances := l.balances[a := Get(l.balances, a) - amount]) else l
    case Payout(a) => PaidOut(l, a)
  }

  ghost function LedgerRun(l: Ledger, es: seq<LedgerEvent>): Ledger
    decreases |es|
  {
    if |es| == 0 then l else LedgerRun(LedgerNext(l, es[0]), es[1..])
  }

  /** All a holder ever received or will be able to, in atoms. */
  function Lifetime(l: Ledger, a: Addr): nat {
    Get(l.paid, a) * ONE + Get(l.credits, a)
  }

  /** Events that only settle: payouts, and transfers of nothing. */
  predicate OnlySettles(e: LedgerEvent) {
    e.Payout? || ((e.Deposit? || e.Remove?) && e.amount == 0)
  }

  function WithoutSettling(es: seq<LedgerEvent>): seq<LedgerEvent> {
    if |es| == 0 then []
    else if OnlySettles(es[0]) then WithoutSettling(es[1..])
    else [es[0]] + WithoutSettling(es[1..])
  }

  ghost predicate SameTotals(l: Ledger, m: Ledger) {
    && (forall a :: Get(l.balances, a) == Get(m.balances, a))
    && Sum(l.balances) == Sum(m.balances)
    && (forall a :: Lifetime(l, a) == Lifetime(m, a))
  }

  lemma SettlingKeepsTotals(l: Ledger, e: LedgerEvent)
    requires OnlySettles(e)
    ensures SameTotals(l, LedgerNext(l, e))
  {
    if e.Payout? {
      var credit := Get(l.credits, e.a);
      assert credit == credit / ONE * ONE + credit % ONE;
    } else {
      SumPut(l.balances, e.a, Get(l.balances, e.a));
    }
  }

  lemma SameTotalsTransitive(l: Ledger, m: Ledger, n: Ledger)
    requires SameTotals(l, m) && SameTotals(l, n)
    ensures SameTotals(m, n)
  {
  }

  lemma SameStep(l: Ledger, m: Ledger, e: LedgerEvent)
    requires SameTotals(l, m) && !OnlySettles(e)
    ensures SameTotals(LedgerNext(l, e), LedgerNext(m, e))
  {
    if e.Distribute? {
      SameDistribution(l, m, e.claimed);
    } else {
      SameTransfer(l, m, e);
    }
  }

  lemma SameTransfer(l: Ledger, m: Ledger, e: LedgerEvent)
    requires SameTotals(l, m) && (e.Deposit? || e.Remove?)
    ensures SameTotals(LedgerNext(l, e), LedgerNext(m, e))
  {
    hide Lifetime, Sum;
    assert Get(l.balances, e.a) == Get(m.balances, e.a);
    var balance := Get(l.balances, e.a);
    if e.Deposit? {
      SamePut(l, m, e.a, balance + e.amount);
    } else if e.amount <= balance {
      SamePut(l, m, e.a, balance - e.amount);
    }
  }

  lemma SamePut(l: Ledger, m: Ledger, a: Addr, v: nat)
    requires SameTotals(l, m)
    ensures SameTotals(l.(balances := l.balances[a := v]), m.(balances := m.balances[a := v]))
  {
    var l', m' := l.(balances := l.balances[a := v]), m.(balances := m.balances[a := v]);
    assert Get(l.balances, a) == Get(m.balances, a);
    SumPut(l.balances, a, v);
    SumPut(m.balances, a, v);
    forall b: Addr
      ensures Get(l'.balances, b) == Get(m'.balances, b) && Lifetime(l', b) == Lifetime(m', b)
    {
      assert Get(l.balances, b) == Get(m.balances, b) && Lifetime(l, b) == Lifetime(m, b);
    }
  }

  lemma SameDistribution(l: Ledger, m: Ledger, claimed: nat)
    requires SameTotals(l, m)
    ensures SameTotals(Distributed(l, claimed), Distributed(m, claimed))
  {
    hide FromRatio;
    if Sum(l.balances) > 0 {
      forall a: Addr
        ensures Get(Distributed(l, claimed).balances, a) == Get(Distributed(m, claimed).balances, a)
        ensures Lifetime(Distributed(l, claimed), a) == Lifetime(Distributed(m, claimed), a)
      {
        DistributedCredit(l, claimed, a);
        DistributedCredit(m, claimed, a);
        assert Get(l.balances, a) == Get(m.balances, a) && Lifetime(l, a) == Lifetime(m, a);
      }
    }
  }

  lemma DistributedCredit(l: Ledger, claimed: nat, a: Addr)
    requires Sum(l.balances) > 0
    ensures Get(Distributed(l, claimed).credits, a) ==
      Get(l.credits, a) + Get(l.balances, a) * FromRatio(claimed, Sum(l.balances))
    ensures Distributed(l, claimed).paid == l.paid && Distributed(l, claimed).balances == l.balances
  {
  }

  /** Settling or claiming more or less often never changes a lifetime total. */
  lemma {:induction false} SettlingNeverMatters(l: Ledger, m: Ledger, es: seq<LedgerEvent>)
    requires SameTotals(l, m)
    ensures SameTotals(LedgerRun(l, es), LedgerRun(m, WithoutSettling(es)))
    decreases |es|
  {
    hide SameTotals, LedgerNext, OnlySettles;
    if |es| == 0 {
    } else if OnlySettles(es[0]) {
      SettlingKeepsTotals(l, es[0]);
      SameTotalsTransitive(l, LedgerNext(l, es[0]), m);
      SettlingNeverMatters(LedgerNext(l, es[0]), m, es[1..]);
    } else {
      SameStep(l, m, es[0]);
      SettlingNeverMatters(LedgerNext(l, es[0]), LedgerNext(m, es[0]), es[1..]);
      var rest := WithoutSettling(es[1..]);
      assert ([es[0]] + rest)[0] == es[0] && ([es[0]] + rest)[1..] == rest;
    }
  }

  // ------------------------------------------------------------ the contract

  /** What the lazy contract owes a holder, in atoms. */
  function Credit(globalIndex: nat, h: Holder): nat {
    if h.index <= globalIndex then h.pending + h.balance * (globalIndex - h.index) else h.pending
  }

  function Balances(s: Storage): map<Addr, nat> {
    map a | a in s.holders :: s.holders[a].balance
  }

  function Credits(s: Storage): map<Addr, nat> {
    map a | a in s.holders :: Credit(s.state.globalIndex, s.holders[a])
  }

  /** Settling multiplies exactly: no rounding, only the narrowing can fail. */
  lemma AccruedIsCredit(state: State, h: Holder)
    requires h.index <= state.globalIndex
    ensures Accrued(state, h).Some? ==> Accrued(state, h).value == Credit(state.globalIndex, h)
    ensures Accrued(state, h).Some? <==>
      h.balance * ONE < U128 && state.globalIndex - h.index < U128 && Credit(state.globalIndex, h) < U128
  {
    var difference := state.globalIndex - h.index;
    var decimalBalance := FromRatio(h.balance, 1);
    assert decimalBalance == h.balance * ONE;
    ExactProduct(h.balance, difference, ONE);
    MulMono(0, h.balance, difference);
  }

  lemma ExactProduct(balance: nat, difference: nat, one: nat)
    requires one > 0
    ensures balance * one * difference / one == balance * difference
  {
    assert balance * one * difference == balance * difference * one;
    DivUnique(balance * one * difference, one, balance * difference);
  }

  ghost predicate IndexesBehind(s: Storage) {
    forall a :: a in s.holders ==> s.holders[a].index <= s.state.globalIndex
  }

  /** The exact books: `dust` is what the divisions of all updates have left over. */
  ghost predicate Exact(s: Storage, dust: nat) {
    && IndexesBehind(s)
    && Sum(Balances(s)) == s.state.totalBalance
    && Sum(Credits(s)) + dust == s.state.prevRewardBalance * ONE
  }

  lemma HolderBehind(s: Storage, a: Addr)
    requires IndexesBehind(s)
    ensures ReadHolder(s, a).index <= s.state.globalIndex
  {
  }

  lemma PutHolder(s: Storage, a: Addr, h: Holder, state: State)
    requires IndexesBehind(s) && state.globalIndex == s.state.globalIndex && h.index <= state.globalIndex
    ensures var after := Storage(state, s.holders[a := h]);
      && IndexesBehind(after)
      && Sum(Balances(after)) == Sum(Balances(s)) - ReadHolder(s, a).balance + h.balance
      && Sum(Credits(after)) ==
        Sum(Credits(s)) - Credit(state.globalIndex, ReadHolder(s, a)) + Credit(state.globalIndex, h)
  {
    hide Credit;
    var after := Storage(state, s.holders[a := h]);
    assert Balances(after) == Balances(s)[a := h.balance];
    SumPut(Balances(s), a, h.balance);
    assert Credits(after) == Credits(s)[a := Credit(state.globalIndex, h)];
    SumPut(Credits(s), a, Credit(state.globalIndex, h));
    EmptyHasNoCredit(state.globalIndex);
  }

  lemma EmptyHasNoCredit(globalIndex: nat)
    ensures Credit(globalIndex, EMPTY_HOLDER) == 0
  {
  }

  lemma SettledCredit(globalIndex: nat, balance: nat, pending: nat)
    ensures Credit(globalIndex, Holder(balance, globalIndex, pending)) == pending
  {
  }

  function CreditOf(s: Storage, a: Addr): nat {
    Credit(s.state.globalIndex, ReadHolder(s, a))
  }

  /** What a balance change means to a caller: one balance and the total change, no
      address gains or loses any reward, pool and index stay. */
  ghost predicate Transferred(before: Storage, after: Storage, a: Addr, change: int) {
    && (forall b :: ReadHolder(after, b).balance == ReadHolder(before, b).balance + (if b == a then change else 0))
    && (forall b :: CreditOf(after, b) == CreditOf(before, b))
    && after.state == before.state.(totalBalance := after.state.totalBalance)
    && after.state.totalBalance == before.state.totalBalance + change
  }

  lemma SettledTransfer(s: Storage, a: Addr, h: Holder, after: Storage, change: int)
    requires after.holders == s.holders[a := h] && after.state.globalIndex == s.state.globalIndex
    requires h.balance == ReadHolder(s, a).balance + change
    requires Credit(s.state.globalIndex, h) == CreditOf(s, a)
    requires after.state == s.state.(totalBalance := after.state.totalBalance)
    requires after.state.totalBalance == s.state.totalBalance + change
    ensures Transferred(s, after, a, change)
  {
    hide Credit;
    assert forall b :: b != a ==> ReadHolder(after, b) == ReadHolder(s, b);
  }

  lemma IncreaseTransfers(s: Storage, a: Addr, amount: nat)
    requires IndexesBehind(s) && Increase(s, true, a, amount).Ok?
    ensures Transferred(s, Increase(s, true, a, amount).value, a, amount)
  {
    hide Credit, Accrued, Transferred;
    HolderBehind(s, a);
    AccruedIsCredit(s.state, ReadHolder(s, a));
    var after := Increase(s, true, a, amount).value;
    SettledCredit(s.state.globalIndex, after.holders[a].balance, after.holders[a].pending);
    SettledTransfer(s, a, after.holders[a], after, amount);
  }

  lemma DecreaseTransfers(s: Storage, a: Addr, amount: nat)
    requires IndexesBehind(s) && Decrease(s, true, a, amount).Ok?
    ensures Transferred(s, Decrease(s, true, a, amount).value, a, 0 - amount)
  {
    hide Credit, Accrued, Transferred;
    HolderBehind(s, a);
    AccruedIsCredit(s.state, ReadHolder(s, a));
    var after := Decrease(s, true, a, amount).value;
    SettledCredit(s.state.globalIndex, after.holders[a].balance, after.holders[a].pending);
    SettledTransfer(s, a, after.holders[a], after, 0 - amount);
  }

  lemma IncreaseExact(s: Storage, a: Addr, amount: nat, dust: nat)
    requires Exact(s, dust) && Increase(s, true, a, amount).Ok?
    ensures Exact(Increase(s, true, a, amount).value, dust)
  {
    hide Credit, Accrued;
    HolderBehind(s, a);
    AccruedIsCredit(s.state, ReadHolder(s, a));
    var after := Increase(s, true, a, amount).value;
    PutHolder(s, a, after.holders[a], after.state);
    SettledCredit(s.state.globalIndex, after.holders[a].balance, after.holders[a].pending);
  }

  lemma DecreaseExact(s: Storage, a: Addr, amount: nat, dust: nat)
    requires Exact(s, dust) && Decrease(s, true, a, amount).Ok?
    ensures Exact(Decrease(s, true, a, amount).value, dust)
  {
    hide Credit, Accrued;
    HolderBehind(s, a);
    AccruedIsCredit(s.state, ReadHolder(s, a));
    var after := Decrease(s, true, a, amount).value;
    PutHolder(s, a, after.holders[a], after.state);
    SettledCredit(s.state.globalIndex, after.holders[a].balance, after.holders[a].pending);
  }

  lemma WholeUnits(v: nat)
    ensures Times(1, v) == v / ONE && v == Times(1, v) * ONE + v % ONE
  {
    assert 1 * v == v;
  }

  /** A claim takes from the books exactly the whole units it pays. */
  lemma ClaimExact(s: Storage, a: Addr, dust: nat)
    requires Exact(s, dust) && Claim(s, a).Ok?
    ensures Exact(Claim(s, a).value.storage, dust)
    ensures var g := s.state.globalIndex;
      && Claim(s, a).value.rewards == Credit(g, ReadHolder(s, a)) / ONE
      && Credit(g, ReadHolder(Claim(s, a).value.storage, a)) == Credit(g, ReadHolder(s, a)) % ONE
  {
    hide Credit, Accrued, Times;
    HolderBehind(s, a);
    AccruedIsCredit(s.state, ReadHolder(s, a));
    WholeUnits(Credit(s.state.globalIndex, ReadHolder(s, a)));
    var after := Claim(s, a).value.storage;
    PutHolder(s, a, after.holders[a], after.state);
    SettledCredit(s.state.globalIndex, after.holders[a].balance, after.holders[a].pending);
    assert (s.state.prevRewardBalance - Claim(s, a).value.rewards) * ONE ==
      s.state.prevRewardBalance * ONE - Claim(s, a).value.rewards * ONE;
  }

  lemma {:induction false} SumScaled(c: map<Addr, nat>, b: map<Addr, nat>, after: map<Addr, nat>, q: nat)
    requires c.Keys == b.Keys == after.Keys
    requires forall a :: a in c ==> after[a] == c[a] + b[a] * q
    ensures Sum(after) == Sum(c) + Sum(b) * q
    decreases |c|
  {
    if c == map[] {
      assert b == map[] && after == map[];
    } else {
      var a :| a in c;
      SmallerWithout(c, a);
      SumRemove(c, a);
      SumRemove(b, a);
      SumRemove(after, a);
      SumScaled(c - {a}, b - {a}, after - {a}, q);
      assert (b[a] + Sum(b - {a})) * q == b[a] * q + Sum(b - {a}) * q;
    }
  }

  lemma CreditGrows(globalIndex: nat, q: nat, h: Holder)
    requires h.index <= globalIndex
    ensures Credit(globalIndex + q, h) == Credit(globalIndex, h) + h.balance * q
  {
    assert h.balance * (globalIndex + q - h.index) == h.balance * (globalIndex - h.index) + h.balance * q;
  }

  /** The part of an update's coins the division leaves over; less than the total balance. */
  function Remainder(s: Storage, balance: nat): nat
    requires s.state.totalBalance > 0 && s.state.prevRewardBalance <= balance
  {
    (balance - s.state.prevRewardBalance) * ONE % s.state.totalBalance
  }

  /** Raising the index credits every holder in proportion to the balance. */
  lemma RaisedIndex(s: Storage, state: State, q: nat)
    requires IndexesBehind(s) && state.globalIndex == s.state.globalIndex + q
    ensures var after := Storage(state, s.holders);
      && IndexesBehind(after)
      && Balances(after) == Balances(s)
      && Sum(Credits(after)) == Sum(Credits(s)) + Sum(Balances(s)) * q
    ensures forall a: Addr :: var h := ReadHolder(s, a);
      Credit(state.globalIndex, h) == Credit(s.state.globalIndex, h) + h.balance * q
  {
    hide Credit;
    forall a: Addr
      ensures Credit(state.globalIndex, ReadHolder(s, a)) ==
        Credit(s.state.globalIndex, ReadHolder(s, a)) + ReadHolder(s, a).balance * q
    {
      CreditGrows(s.state.globalIndex, q, ReadHolder(s, a));
    }
    var after := Storage(state, s.holders);
    forall a | a in s.holders
      ensures Credits(after)[a] == Credits(s)[a] + Balances(s)[a] * q
    {
      assert ReadHolder(s, a) == s.holders[a];
    }
    SumScaled(Credits(s), Balances(s), Credits(after), q);
  }

  lemma DivisionRemainder(claimed: nat, total: nat)
    requires total > 0
    ensures claimed * ONE == total * FromRatio(claimed, total) + claimed * ONE % total
  {
  }

  /** An update credits everyone in proportion and adds its remainder to the dust. */
  lemma UpdateExact(s: Storage, balance: nat, dust: nat)
    requires Exact(s, dust) && UpdateGlobalIndex(s, true, balance).Ok?
    ensures Exact(UpdateGlobalIndex(s, true, balance).value, dust + Remainder(s, balance))
    ensures Remainder(s, balance) < s.state.totalBalance
    ensures var q := FromRatio(balance - s.state.prevRewardBalance, s.state.totalBalance);
      forall a: Addr :: var h := ReadHolder(s, a);
        Credit(s.state.globalIndex + q, h) == Credit(s.state.globalIndex, h) + h.balance * q
  {
    hide Credit, FromRatio, Balances, Credits, Sum;
    var after := UpdateGlobalIndex(s, true, balance).value;
    var claimed, total := balance - s.state.prevRewardBalance, s.state.totalBalance;
    var q := FromRatio(claimed, total);
    RaisedIndex(s, after.state, q);
    DivisionRemainder(claimed, total);
  }

  /** In exact books no subtraction of a claim or a decrease can fail. */
  lemma SubtractionsNeverFail(s: Storage, a: Addr, amount: nat, dust: nat)
    requires Exact(s, dust)
    ensures Claim(s, a) != Err(InsufficientRewards)
    ensures Decrease(s, true, a, amount) != Err(TotalTooSmall)
    ensures Credit(s.state.globalIndex, ReadHolder(s, a)) <= s.state.prevRewardBalance * ONE
    ensures ReadHolder(s, a).balance <= s.state.totalBalance
  {
    hide Credit, Accrued, Times;
    HolderBehind(s, a);
    var credit := Credit(s.state.globalIndex, ReadHolder(s, a));
    AccruedIsCredit(s.state, ReadHolder(s, a));
    EmptyHasNoCredit(s.state.globalIndex);
    if a in s.holders {
      SumEntry(Credits(s), a);
      SumEntry(Balances(s), a);
    }
    WholeUnits(credit);
    MulCancelLe(Times(1, credit), s.state.prevRewardBalance, ONE);
  }

  /** While balances and the reward pool are below 2^128 / 10^18, no narrowing of a
      claim, increase or decrease can fail. */
  lemma NarrowingNeverFails(s: Storage, a: Addr, amount: nat, dust: nat)
    requires Exact(s, dust) && s.state.globalIndex < U128
    requires ReadHolder(s, a).balance * ONE < U128 && s.state.prevRewardBalance * ONE < U128
    ensures Claim(s, a) != Err(Narrowing)
    ensures Increase(s, true, a, amount) != Err(Narrowing)
    ensures Decrease(s, true, a, amount) != Err(Narrowing)
  {
    hide Credit, Accrued, Times;
    SubtractionsNeverFail(s, a, amount, dust);
    HolderBehind(s, a);
    AccruedIsCredit(s.state, ReadHolder(s, a));
  }

  // ------------------------------------------------------------- whole runs

  /** The contract, its bank balance, the rewards it has paid to each address, the
      accumulated dust and the ledger beside it. */
  datatype World = World(reward: Storage, bank: nat, paid: map<Addr, nat>, dust: nat, ledger: Ledger)

  datatype Event =
    | Arrive(amount: nat)
    | Update
    | IncreaseCall(a: Addr, amount: nat)
    | DecreaseCall(a: Addr, amount: nat)
    | ClaimCall(a: Addr, taxRate: nat, taxCap: nat)

  const START := World(INITIAL, 0, map[], 0, Ledger(map[], map[], map[]))

  /** The bank after paying a claim: the coin leaves and so does the tax on it. */
  function BankAfterClaim(bank: nat, rewards: nat, taxRate: nat, taxCap: nat): nat {
    var coin := DeductTax(rewards, taxRate, taxCap);
    var out := coin + ChainTax(coin, taxRate, taxCap);
    if out <= bank then bank - out else 0
  }

  ghost function Next(w: World, e: Event): World {
    match e
    case Arrive(amount) => w.(bank := w.bank + amount)
    case Update => NextUpdate(w)
    case IncreaseCall(a, amount) =>
      (match Increase(w.reward, true, a, amount)
       case Err(_) => w
       case Ok(after) => w.(reward := after, ledger := LedgerNext(w.ledger, Deposit(a, amount))))
    case DecreaseCall(a, amount) =>
      (match Decrease(w.reward, true, a, amount)
       case Err(_) => w
       case Ok(after) => w.(reward := after, ledger := LedgerNext(w.ledger, Remove(a, amount))))
    case ClaimCall(a, taxRate, taxCap) =>
      (match Claim(w.reward, a)
       case Err(_) => w
       case Ok(claimed) => w.(
         reward := claimed.storage,
         bank := BankAfterClaim(w.bank, claimed.rewards, taxRate, taxCap),
         paid := w.paid[a := Get(w.paid, a) + claimed.rewards],
         ledger := LedgerNext(w.ledger, Payout(a))))
  }

  ghost function NextUpdate(w: World): World {
    match UpdateGlobalIndex(w.reward, true, w.bank)
    case Err(_) => w
    case Ok(after) => w.(
      reward := after,
      dust := w.dust + (if w.reward.state.totalBalance > 0 && w.reward.state.prevRewardBalance <= w.bank
                        then Remainder(w.reward, w.bank) else 0),
      ledger := if w.reward.state.prevRewardBalance <= w.bank
                then LedgerNext(w.ledger, Distribute(w.bank - w.reward.state.prevRewardBalance)) else w.ledger)
  }

  ghost function Run(w: World, es: seq<Event>): World
    decreases |es|
  {
    if |es| == 0 then w else Run(Next(w, es[0]), es[1..])
  }

  /** The lazy contract and the eager ledger agree on every address. */
  ghost predicate Agree(s: Storage, l: Ledger) {
    && (forall a :: Get(l.balances, a) == ReadHolder(s, a).balance)
    && (forall a :: Get(l.credits, a) == Credit(s.state.globalIndex, ReadHolder(s, a)))
    && Sum(l.balances) == s.state.totalBalance
  }

  /** Contract and ledger have paid every address the same. */
  ghost predicate PaidAlike(paid: map<Addr, nat>, l: Ledger) {
    forall a :: Get(paid, a) == Get(l.paid, a)
  }

  ghost predicate Inv(w: World) {
    && Exact(w.reward, w.dust)
    && Agree(w.reward, w.ledger)
    && PaidAlike(w.paid, w.ledger)
    && w.reward.state.prevRewardBalance <= w.bank
    && w.reward.state.globalIndex < U128
  }

  lemma StartInv()
    ensures Inv(START)
  {
    assert Balances(INITIAL) == map[] && Credits(INITIAL) == map[];
  }

  lemma AgreeAfterPut(s: Storage, l: Ledger, a: Addr, h: Holder, after: Storage, l': Ledger)
    requires Agree(s, l)
    requires after.holders == s.holders[a := h] && after.state.globalIndex == s.state.globalIndex
    requires l'.balances == l.balances[a := h.balance]
    requires Get(l'.credits, a) == Credit(s.state.globalIndex, h)
    requires forall b :: b != a ==> Get(l'.credits, b) == Get(l.credits, b)
    requires after.state.totalBalance == s.state.totalBalance - ReadHolder(s, a).balance + h.balance
    ensures Agree(after, l')
  {
    hide Credit;
    SumPut(l.balances, a, h.balance);
    forall b: Addr
      ensures Get(l'.balances, b) == ReadHolder(after, b).balance
      ensures Get(l'.credits, b) == Credit(after.state.globalIndex, ReadHolder(after, b))
    {
      assert b != a ==> ReadHolder(after, b) == ReadHolder(s, b);
      assert Get(l.balances, b) == ReadHolder(s, b).balance;
      assert Get(l.credits, b) == Credit(s.state.globalIndex, ReadHolder(s, b));
    }
    assert Get(l.balances, a) == ReadHolder(s, a).balance;
  }

  lemma IncreaseInv(w: World, a: Addr, amount: nat)
    requires Inv(w)
    ensures Inv(Next(w, IncreaseCall(a, amount)))
  {
    hide Credit, Accrued, Exact;
    if Increase(w.reward, true, a, amount).Ok? {
      IncreaseExact(w.reward, a, amount, w.dust);
      IncreaseAgrees(w, a, amount);
    }
  }

  lemma IncreaseAgrees(w: World, a: Addr, amount: nat)
    requires Inv(w) && Increase(w.reward, true, a, amount).Ok?
    ensures Agree(Increase(w.reward, true, a, amount).value, LedgerNext(w.ledger, Deposit(a, amount)))
  {
    hide Credit, Accrued, Agree;
    var after := Increase(w.reward, true, a, amount).value;
    AgreesOn(w, a);
    AccruedIsCredit(w.reward.state, ReadHolder(w.reward, a));
    SettledCredit(w.reward.state.globalIndex, after.holders[a].balance, after.holders[a].pending);
    AgreeAfterPut(w.reward, w.ledger, a, after.holders[a], after, LedgerNext(w.ledger, Deposit(a, amount)));
  }

  lemma AgreesOn(w: World, a: Addr)
    requires Inv(w)
    ensures Get(w.ledger.balances, a) == ReadHolder(w.reward, a).balance
    ensures Get(w.ledger.credits, a) == Credit(w.reward.state.globalIndex, ReadHolder(w.reward, a))
    ensures ReadHolder(w.reward, a).index <= w.reward.state.globalIndex
    ensures Get(w.paid, a) == Get(w.ledger.paid, a)
  {
  }

  lemma DecreaseInv(w: World, a: Addr, amount: nat)
    requires Inv(w)
    ensures Inv(Next(w, DecreaseCall(a, amount)))
  {
    hide Credit, Accrued, Exact;
    if Decrease(w.reward, true, a, amount).Ok? {
      DecreaseExact(w.reward, a, amount, w.dust);
      DecreaseAgrees(w, a, amount);
    }
  }

  lemma DecreaseAgrees(w: World, a: Addr, amount: nat)
    requires Inv(w) && Decrease(w.reward, true, a, amount).Ok?
    ensures Agree(Decrease(w.reward, true, a, amount).value, LedgerNext(w.ledger, Remove(a, amount)))
  {
    hide Credit, Accrued, Agree;
    var after := Decrease(w.reward, true, a, amount).value;
    AgreesOn(w, a);
    AccruedIsCredit(w.reward.state, ReadHolder(w.reward, a));
    SettledCredit(w.reward.state.globalIndex, after.holders[a].balance, after.holders[a].pending);
    AgreeAfterPut(w.reward, w.ledger, a, after.holders[a], after, LedgerNext(w.ledger, Remove(a, amount)));
  }

  lemma ClaimInv(w: World, a: Addr, taxRate: nat, taxCap: nat)
    requires Inv(w)
    ensures Inv(Next(w, ClaimCall(a, taxRate, taxCap)))
  {
    hide Credit, Accrued, Exact, Agree, PaidAlike, DeductTax, ChainTax;
    if Claim(w.reward, a).Ok? {
      ClaimExact(w.reward, a, w.dust);
      ClaimAgrees(w, a);
      AgreesOn(w, a);
      PaidAlikeAfter(w.paid, w.ledger, a, Claim(w.reward, a).value.rewards);
      TaxFits(Claim(w.reward, a).value.rewards, taxRate, taxCap);
    }
  }

  lemma PaidAlikeAfter(paid: map<Addr, nat>, l: Ledger, a: Addr, rewards: nat)
    requires PaidAlike(paid, l) && rewards == Get(l.credits, a) / ONE
    ensures PaidAlike(paid[a := Get(paid, a) + rewards], PaidOut(l, a))
  {
    forall b: Addr
      ensures Get(paid[a := Get(paid, a) + rewards], b) == Get(PaidOut(l, a).paid, b)
    {
      assert Get(paid, b) == Get(l.paid, b) && Get(paid, a) == Get(l.paid, a);
    }
  }

  lemma ClaimAgrees(w: World, a: Addr)
    requires Inv(w) && Claim(w.reward, a).Ok?
    ensures Agree(Claim(w.reward, a).value.storage, LedgerNext(w.ledger, Payout(a)))
  {
    hide Credit, Accrued, Agree, Times;
    var after := Claim(w.reward, a).value.storage;
    AgreesOn(w, a);
    ClaimExact(w.reward, a, w.dust);
    ClaimPutsBalance(w.ledger, w.reward, a);
    AgreeAfterClaim(w.reward, w.ledger, a, after);
  }

  lemma ClaimPutsBalance(l: Ledger, s: Storage, a: Addr)
    requires Claim(s, a).Ok?
    ensures var after := Claim(s, a).value.storage;
      && a in after.holders && after.holders == s.holders[a := after.holders[a]]
      && after.holders[a].balance == ReadHolder(s, a).balance
      && after.state.globalIndex == s.state.globalIndex
      && after.state.totalBalance == s.state.totalBalance
  {
  }

  lemma AgreeAfterClaim(s: Storage, l: Ledger, a: Addr, after: Storage)
    requires Agree(s, l) && a in after.holders && after.holders == s.holders[a := after.holders[a]]
    requires after.holders[a].balance == ReadHolder(s, a).balance
    requires after.state.globalIndex == s.state.globalIndex
    requires after.state.totalBalance == s.state.totalBalance
    requires Credit(s.state.globalIndex, after.holders[a]) == Credit(s.state.globalIndex, ReadHolder(s, a)) % ONE
    ensures Agree(after, PaidOut(l, a))
  {
    hide Credit;
    forall b: Addr
      ensures Get(PaidOut(l, a).balances, b) == ReadHolder(after, b).balance
      ensures Get(PaidOut(l, a).credits, b) == Credit(after.state.globalIndex, ReadHolder(after, b))
    {
      assert Get(l.balances, b) == ReadHolder(s, b).balance;
      assert Get(l.credits, b) == Credit(s.state.globalIndex, ReadHolder(s, b));
      assert b != a ==> ReadHolder(after, b) == ReadHolder(s, b);
    }
  }

  lemma UpdateInv(w: World)
    requires Inv(w)
    ensures Inv(NextUpdate(w))
  {
    hide Credit, Exact, Agree, Remainder, Distributed;
    if UpdateGlobalIndex(w.reward, true, w.bank).Ok? {
      UpdateExact(w.reward, w.bank, w.dust);
      UpdateAgrees(w);
      DistributedPaysNothing(w.ledger, w.bank - w.reward.state.prevRewardBalance);
    }
  }

  lemma DistributedPaysNothing(l: Ledger, claimed: nat)
    ensures Distributed(l, claimed).paid == l.paid
  {
  }

  lemma UpdateAgrees(w: World)
    requires Inv(w) && UpdateGlobalIndex(w.reward, true, w.bank).Ok?
    ensures Agree(UpdateGlobalIndex(w.reward, true, w.bank).value,
      Distributed(w.ledger, w.bank - w.reward.state.prevRewardBalance))
  {
    hide Credit, Distributed, FromRatio;
    var s, claimed := w.reward, w.bank - w.reward.state.prevRewardBalance;
    var after := UpdateGlobalIndex(s, true, w.bank).value;
    UpdateExact(s, w.bank, w.dust);
    forall a: Addr
      ensures Get(Distributed(w.ledger, claimed).balances, a) == ReadHolder(after, a).balance
      ensures Get(Distributed(w.ledger, claimed).credits, a) == Credit(after.state.globalIndex, ReadHolder(after, a))
    {
      DistributedCredit(w.ledger, claimed, a);
      AgreesOn(w, a);
      assert ReadHolder(after, a) == ReadHolder(s, a);
    }
    DistributedCredit(w.ledger, claimed, "");
  }

  lemma NextInv(w: World, e: Event)
    requires Inv(w)
    ensures Inv(Next(w, e))
  {
    hide Exact, Agree, NextUpdate, Increase, Decrease, Claim;
    match e
    case Arrive(amount) =>
    case Update => UpdateInv(w);
    case IncreaseCall(a, amount) => IncreaseInv(w, a, amount);
    case DecreaseCall(a, amount) => DecreaseInv(w, a, amount);
    case ClaimCall(a, taxRate, taxCap) => ClaimInv(w, a, taxRate, taxCap);
  }

  /** Over every run the lazy contract agrees with the eager ledger, its books are
      exact down to the dust, and its bank balance covers them. */
  lemma {:induction false} RunInv(w: World, es: seq<Event>)
    requires Inv(w)
    ensures Inv(Run(w, es))
    decreases |es|
  {
    hide Inv, Next;
    if |es| == 0 {
    } else {
      NextInv(w, es[0]);
      RunInv(Next(w, es[0]), es[1..]);
    }
  }

  /** The contract's books over every run: the pool equals all credits plus the
      remainders of the divisions, indexes never run ahead, the bank covers the
      pool, and no claim or decrease fails in a subtraction. */
  lemma RewardSolvency(es: seq<Event>, a: Addr, amount: nat)
    ensures var v := Run(START, es); var s := v.reward;
      && s.state.prevRewardBalance * ONE == Sum(Credits(s)) + v.dust
      && s.state.prevRewardBalance <= v.bank
      && s.state.totalBalance == Sum(Balances(s))
      && (forall b :: b in s.holders ==> s.holders[b].index <= s.state.globalIndex)
      && Claim(s, a) != Err(InsufficientRewards)
      && Decrease(s, true, a, amount) != Err(TotalTooSmall)
      && UpdateGlobalIndex(s, true, v.bank) != Err(BalanceShrank)
  {
    hide Run, Agree, Claim, Decrease, Credits, Balances, UpdateGlobalIndex, Sum, Credit, ReadHolder;
    StartInv();
    RunInv(START, es);
    var v := Run(START, es);
    SubtractionsNeverFail(v.reward, a, amount, v.dust);
    UpdateNeverShrinks(v.reward, v.bank);
  }

  lemma UpdateNeverShrinks(s: Storage, bank: nat)
    requires s.state.prevRewardBalance <= bank
    ensures UpdateGlobalIndex(s, true, bank) != Err(BalanceShrank)
  {
  }

  /** In every run a claim takes the gross reward from the bank, coin and tax together,
      up to less than two coins and the tax on one. */
  lemma ClaimSpendsReward(es: seq<Event>, a: Addr, taxRate: nat, taxCap: nat)
    ensures var v := Run(START, es);
      Claim(v.reward, a).Ok? ==>
        var rewards, left := Claim(v.reward, a).value.rewards, Next(v, ClaimCall(a, taxRate, taxCap)).bank;
        && rewards == CreditOf(v.reward, a) / ONE
        && v.bank - rewards <= left && (left - (v.bank - rewards)) * ONE < 2 * ONE + taxRate
  {
    hide Run, Agree, Exact, Claim, Credit, DeductTax, ChainTax, LedgerNext;
    StartInv();
    RunInv(START, es);
    var v := Run(START, es);
    if Claim(v.reward, a).Ok? {
      ClaimExact(v.reward, a, v.dust);
      ClaimWithinPool(v.reward, a);
      TaxFits(Claim(v.reward, a).value.rewards, taxRate, taxCap);
    }
  }

  lemma ClaimWithinPool(s: Storage, a: Addr)
    requires Claim(s, a).Ok?
    ensures Claim(s, a).value.rewards <= s.state.prevRewardBalance
  {
  }

  /** While balances and pool are below 2^128 / 10^18 no narrowing can fail. */
  lemma NoNarrowingOverflow(es: seq<Event>, a: Addr, amount: nat)
    ensures var s := Run(START, es).reward;
      ReadHolder(s, a).balance * ONE < U128 && s.state.prevRewardBalance * ONE < U128 ==>
        && Claim(s, a) != Err(Narrowing)
        && Increase(s, true, a, amount) != Err(Narrowing)
        && Decrease(s, true, a, amount) != Err(Narrowing)
  {
    hide Run, Agree, Claim, Decrease, Increase, Exact;
    StartInv();
    RunInv(START, es);
    var v := Run(START, es);
    if ReadHolder(v.reward, a).balance * ONE < U128 && v.reward.state.prevRewardBalance * ONE < U128 {
      NarrowingNeverFails(v.reward, a, amount, v.dust);
    }
  }

  /** Lazy equals eager, for every run and every address. */
  lemma LazyEqualsEager(es: seq<Event>, a: Addr)
    ensures var v := Run(START, es); var h := ReadHolder(v.reward, a);
      && h.index <= v.reward.state.globalIndex
      && h.pending + h.balance * (v.reward.state.globalIndex - h.index) == Get(v.ledger.credits, a)
      && h.balance == Get(v.ledger.balances, a)
      && Get(v.paid, a) == Get(v.ledger.paid, a)
  {
    hide Run, Inv;
    StartInv();
    RunInv(START, es);
    AgreesOn(Run(START, es), a);
  }

  /** The query announces exactly what the ledger would pay and what a claim pays. */
  lemma QueryIsWhatClaimPays(w: World, es: seq<Event>, a: Addr)
    requires w == START
    ensures var v := Run(w, es);
      && (QueryAccrued(v.reward, a).Some? ==>
        QueryAccrued(v.reward, a).value == Get(v.ledger.credits, a) / ONE)
      && (Claim(v.reward, a).Ok? ==>
        QueryAccrued(v.reward, a) == Some(Claim(v.reward, a).value.rewards))
      && (QueryAccrued(v.reward, a).Some? && QueryAccrued(v.reward, a).value > 0 ==> Claim(v.reward, a).Ok?)
  {
    hide Run, Next, Credit, Accrued, Agree, Times, Exact;
    StartInv();
    RunInv(w, es);
    var v := Run(w, es);
    AgreesOn(v, a);
    AccruedIsCredit(v.reward.state, ReadHolder(v.reward, a));
    WholeUnits(Credit(v.reward.state.globalIndex, ReadHolder(v.reward, a)));
    SubtractionsNeverFail(v.reward, a, 0, v.dust);
  }

  // --------------------------------------------------- comparing two runs

  /** The ledger event of a successful call, if it has one. */
  ghost function Traced(w: World, e: Event): seq<LedgerEvent> {
    match e
    case Arrive(_) => []
    case Update =>
      if UpdateGlobalIndex(w.reward, true, w.bank).Ok? && w.reward.state.prevRewardBalance <= w.bank
      then [Distribute(w.bank - w.reward.state.prevRewardBalance)] else []
    case IncreaseCall(a, amount) => if Increase(w.reward, true, a, amount).Ok? then [Deposit(a, amount)] else []
    case DecreaseCall(a, amount) => if Decrease(w.reward, true, a, amount).Ok? then [Remove(a, amount)] else []
    case ClaimCall(a, _, _) => if Claim(w.reward, a).Ok? then [Payout(a)] else []
  }

  ghost function Trace(w: World, es: seq<Event>): seq<LedgerEvent>
    decreases |es|
  {
    if |es| == 0 then [] else Traced(w, es[0]) + Trace(Next(w, es[0]), es[1..])
  }

  lemma TracedStep(w: World, e: Event)
    ensures Next(w, e).ledger == LedgerRun(w.ledger, Traced(w, e))
  {
    hide UpdateGlobalIndex, Increase, Decrease, Claim, LedgerNext;
    if |Traced(w, e)| > 0 {
      assert Traced(w, e)[1..] == [];
    }
  }

  lemma {:induction false} LedgerRunAppend(l: Ledger, a: seq<LedgerEvent>, b: seq<LedgerEvent>)
    ensures LedgerRun(l, a + b) == LedgerRun(LedgerRun(l, a), b)
    decreases |a|
  {
    hide LedgerNext;
    if |a| == 0 {
      assert a + b == b;
    } else {
      assert (a + b)[1..] == a[1..] + b && (a + b)[0] == a[0];
      LedgerRunAppend(LedgerNext(l, a[0]), a[1..], b);
    }
  }

  lemma {:induction false} RunLedger(w: World, es: seq<Event>)
    ensures Run(w, es).ledger == LedgerRun(w.ledger, Trace(w, es))
    decreases |es|
  {
    hide Next, Traced;
    if |es| == 0 {
    } else {
      TracedStep(w, es[0]);
      RunLedger(Next(w, es[0]), es[1..]);
      LedgerRunAppend(w.ledger, Traced(w, es[0]), Trace(Next(w, es[0]), es[1..]));
    }
  }

  /** What a holder was paid and still has coming from the contract, in atoms. */
  ghost function ContractLifetime(w: World, a: Addr): nat {
    Get(w.paid, a) * ONE + Credit(w.reward.state.globalIndex, ReadHolder(w.reward, a))
  }

  /** Two runs that distribute the same coins over the same transfers give every
      holder the same lifetime total, however often anyone claims or settles. */
  lemma LifetimeIgnoresSettling(es: seq<Event>, fs: seq<Event>, a: Addr)
    requires WithoutSettling(Trace(START, es)) == WithoutSettling(Trace(START, fs))
    ensures ContractLifetime(Run(START, es), a) == ContractLifetime(Run(START, fs), a)
  {
    hide Run, LedgerRun, Trace, WithoutSettling, Credit;
    LifetimeIsLedgers(es, a);
    LifetimeIsLedgers(fs, a);
    var l := START.ledger;
    SameAsItself(l);
    SettlingNeverMatters(l, l, Trace(START, es));
    SettlingNeverMatters(l, l, Trace(START, fs));
    RunLedger(START, es);
    RunLedger(START, fs);
    var rest := LedgerRun(l, WithoutSettling(Trace(START, es)));
    assert Lifetime(Run(START, es).ledger, a) == Lifetime(rest, a);
    assert Lifetime(Run(START, fs).ledger, a) == Lifetime(rest, a);
  }

  lemma SameAsItself(l: Ledger)
    ensures SameTotals(l, l)
  {
  }

  lemma LifetimeIsLedgers(es: seq<Event>, a: Addr)
    ensures ContractLifetime(Run(START, es), a) == Lifetime(Run(START, es).ledger, a)
  {
    hide Run, Next, Credit, Inv;
    StartInv();
    RunInv(START, es);
    AgreesOn(Run(START, es), a);
  }
}
