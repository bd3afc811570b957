/** `process_withdraw_rate`: which batches are ripe, at which rate they are
    released, and what that does to the sum the hub owes. */
module WithdrawRate {
  import opened Decimals
  import opened Sums
  import opened HubTypes
  import opened Apportionment

  predicate Ripe(h: Histories, b: nat, time: nat) {
    b in h && h[b].time <= time && !h[b].released
  }

  /** The first batch at or after `i` at which both loops stop. */
  function RipeEnd(h: Histories, i: nat, time: nat, bound: nat): (end: nat)
    ensures i <= end && (i <= bound ==> end <= bound)
    ensures forall b :: i <= b < end ==> b in h && h[b].time <= time && !h[b].released
    ensures end < bound ==> !Ripe(h, end, time)
    decreases bound - i
  {
    if i < bound && Ripe(h, i, time) then RipeEnd(h, i + 1, time, bound) else i
  }

  /** The coins a batch was expected to return. */
  function Expected(history: UnbondHistory): nat {
    Times(history.amount, history.withdrawRate)
  }

  /** The expected coins of batches `i` to `j - 1`. */
  function ExpectedFrom(h: Histories, i: nat, j: nat): (us: seq<nat>)
    requires forall b :: i <= b < j ==> b in h
    ensures |us| == if i <= j then j - i else 0
    decreases j
  {
    if j <= i then [] else ExpectedFrom(h, i, j - 1) + [Expected(h[j - 1])]
  }

  lemma {:induction false} ExpectedAt(h: Histories, i: nat, j: nat, b: nat)
    requires i <= b < j && forall c :: i <= c < j ==> c in h
    ensures ExpectedFrom(h, i, j)[b - i] == Expected(h[b])
    decreases j
  {
    if b < j - 1 {
      ExpectedAt(h, i, j - 1, b);
    }
  }

  /** Neither of the two ratios divides by zero and the correction does not underflow. */
  predicate Releasable(history: UnbondHistory, total: nat, arrived: nat) {
    history.amount > 0 && CanRelease(Expected(history), total, arrived)
  }

  function Release(history: UnbondHistory, total: nat, arrived: nat): UnbondHistory
    requires Releasable(history, total, arrived)
  {
    history.(withdrawRate := FromRatio(Actual(Expected(history), total, arrived), history.amount), released := true)
  }

  predicate RangeReleasable(h: Histories, i: nat, j: nat, total: nat, arrived: nat) {
    forall b :: i <= b < j ==> b in h && Releasable(h[b], total, arrived)
  }

  function ReleaseRange(h: Histories, i: nat, j: nat, total: nat, arrived: nat): Histories
    requires RangeReleasable(h, i, j, total, arrived)
  {
    map b | b in h :: if i <= b < j then Release(h[b], total, arrived) else h[b]
  }

  /** The coins that arrived since the last payout. */
  function Arrived(s: Storage, bank: nat): nat {
    s.state.actualUnbondedAmount + FromSubtraction(bank, s.state.prevHubBalance).abs
  }

  function RoundStart(s: Storage): nat {
    s.state.lastProcessedBatch + 1
  }

  function RoundEnd(s: Storage, time: nat): nat {
    RipeEnd(s.histories, RoundStart(s), time, s.batch.id)
  }

  function RoundExpected(s: Storage, time: nat): seq<nat> {
    ExpectedFrom(s.histories, RoundStart(s), RoundEnd(s, time))
  }

  /** The whole function; `time` is the block time less the unbonding period. */
  function Process(s: Storage, time: nat, bank: nat): Result<Storage, Error> {
    var first, end := RoundStart(s), RoundEnd(s, time);
    var arrived, total := Arrived(s, bank), SumSeq(RoundExpected(s, time));
    var settled := s.state.(actualUnbondedAmount := 0);
    if first == end then Ok(s.(state := settled))
    else if !RangeReleasable(s.histories, first, end, total, arrived) then Err(ReleaseFailed)
    else Ok(s.(
      state := settled.(lastProcessedBatch := end - 1),
      histories := ReleaseRange(s.histories, first, end, total, arrived)))
  }

  /** What the round credits in all; zero when nothing is ripe. */
  function RoundCredit(s: Storage, time: nat, bank: nat): nat {
    var us, arrived := RoundExpected(s, time), Arrived(s, bank);
    if |us| > 0 && AllRelease(us, SumSeq(us), arrived) then CreditSum(us, SumSeq(us), arrived) else 0
  }

  // -------------------------------------------------------- what is owed

  predicate IsReleased(h: Histories, b: nat) {
    b in h && h[b].released
  }

  /** Each wait list entry of a released batch with the coins it will be paid. */
  function Payable(w: Waits, h: Histories): Waits {
    map k | k in w && IsReleased(h, k.batch) :: Times(w[k], h[k.batch].withdrawRate)
  }

  function OfBatch(w: Waits, b: nat): Waits {
    map k | k in w && k.batch == b :: w[k]
  }

  function OfUser(w: Waits, user: Addr): Waits {
    map k | k in w && k.user == user :: w[k]
  }

  function NotOfUser(w: Waits, user: Addr): Waits {
    map k | k in w && k.user != user :: w[k]
  }

  function AtRate(w: Waits, rate: nat): Waits {
    map k | k in w :: Times(w[k], rate)
  }

  ghost function BatchTotal(w: Waits, b: nat): nat {
    Sum(OfBatch(w, b))
  }

  /** Everything the hub owes for released batches. */
  ghost function Owed(w: Waits, h: Histories): nat {
    Sum(Payable(w, h))
  }

  lemma {:induction false} SumAtRate(w: Waits, rate: nat)
    ensures Sum(AtRate(w, rate)) <= Times(Sum(w), rate)
    decreases |w|
  {
    if w == map[] {
      assert AtRate(w, rate) == map[];
    } else {
      var k :| k in w;
      SmallerWithout(w, k);
      SumRemove(w, k);
      SumRemove(AtRate(w, rate), k);
      assert AtRate(w, rate) - {k} == AtRate(w - {k}, rate);
      SumAtRate(w - {k}, rate);
      TimesSuperadditive(w[k], Sum(w - {k}), rate);
    }
  }

  lemma TimesMono(a: nat, b: nat, rate: nat)
    requires a <= b
    ensures Times(a, rate) <= Times(b, rate)
  {
    MulMono(a, b, rate);
    DivMono(a * rate, b * rate, ONE);
  }

  /** A released batch owes its waiting users at most what it was credited. */
  lemma BatchOwesAtMostActual(w: Waits, history: UnbondHistory, b: nat, total: nat, arrived: nat)
    requires Releasable(history, total, arrived) && BatchTotal(w, b) <= history.amount
    ensures Sum(AtRate(OfBatch(w, b), Release(history, total, arrived).withdrawRate))
      <= Actual(Expected(history), total, arrived)
  {
    var rate := Release(history, total, arrived).withdrawRate;
    SumAtRate(OfBatch(w, b), rate);
    TimesMono(BatchTotal(w, b), history.amount, rate);
    RatioRoundTrip(Actual(Expected(history), total, arrived), history.amount);
  }

  /** The new rate is the largest at which the credited coins cover the batch. */
  lemma ReleasedRate(history: UnbondHistory, total: nat, arrived: nat)
    requires Releasable(history, total, arrived)
    ensures IsFloor(Release(history, total, arrived).withdrawRate,
      Actual(Expected(history), total, arrived) * ONE, history.amount)
  {
    FromRatioFloor(Actual(Expected(history), total, arrived), history.amount);
  }

  /** Paying entries one by one loses less than one coin each. */
  lemma {:induction false} SumAtRateLoses(w: Waits, rate: nat)
    ensures Sum(w) * rate <= (Sum(AtRate(w, rate)) + |w|) * ONE
    decreases |w|
  {
    hide Times;
    if w == map[] {
      assert AtRate(w, rate) == map[];
    } else {
      var k :| k in w;
      SmallerWithout(w, k);
      SumRemove(w, k);
      SumRemove(AtRate(w, rate), k);
      assert AtRate(w, rate) - {k} == AtRate(w - {k}, rate);
      SumAtRateLoses(w - {k}, rate);
      TimesFloor(w[k], rate);
      LosesOneMore(w[k], Sum(w - {k}), Times(w[k], rate), Sum(AtRate(w - {k}, rate)), |w - {k}|, rate);
    }
  }

  lemma LosesOneMore(x: nat, rest: nat, paid: nat, paidRest: nat, n: nat, rate: nat)
    requires x * rate < paid * ONE + ONE && rest * rate <= (paidRest + n) * ONE
    ensures (x + rest) * rate <= (paid + paidRest + (n + 1)) * ONE
  {
    assert (x + rest) * rate == x * rate + rest * rate;
  }

  /** A released batch pays its users all it was credited, less at most one coin for
      each entry and the rounding of the rate. */
  lemma BatchPaysNearlyActual(w: Waits, history: UnbondHistory, b: nat, total: nat, arrived: nat)
    requires Releasable(history, total, arrived) && BatchTotal(w, b) == history.amount
    ensures var paid := Sum(AtRate(OfBatch(w, b), Release(history, total, arrived).withdrawRate));
      Actual(Expected(history), total, arrived) * ONE < (paid + |OfBatch(w, b)|) * ONE + history.amount
  {
    hide Actual, Release, AtRate, Sum, OfBatch;
    SumAtRateLoses(OfBatch(w, b), Release(history, total, arrived).withdrawRate);
    ReleasedRate(history, total, arrived);
  }

  lemma ReleaseOneMore(w: Waits, h: Histories, b: nat, released: UnbondHistory)
    requires b in h && !h[b].released && released.released
    ensures Owed(w, h[b := released]) == Owed(w, h) + Sum(AtRate(OfBatch(w, b), released.withdrawRate))
  {
    var more := AtRate(OfBatch(w, b), released.withdrawRate);
    assert Payable(w, h[b := released]) == Payable(w, h) + more;
    SumUnion(Payable(w, h), more);
  }

  lemma ReleaseOneOwes(w: Waits, h: Histories, b: nat, total: nat, arrived: nat)
    requires b in h && !h[b].released && Releasable(h[b], total, arrived)
    requires BatchTotal(w, b) <= h[b].amount
    ensures Owed(w, h[b := Release(h[b], total, arrived)]) <=
      Owed(w, h) + Actual(Expected(h[b]), total, arrived)
  {
    ReleaseOneMore(w, h, b, Release(h[b], total, arrived));
    BatchOwesAtMostActual(w, h[b], b, total, arrived);
  }

  lemma ReleaseRangeStep(h: Histories, i: nat, b: nat, total: nat, arrived: nat)
    requires i <= b && RangeReleasable(h, i, b + 1, total, arrived)
    ensures var before := ReleaseRange(h, i, b, total, arrived);
      && b in before && before[b] == h[b]
      && ReleaseRange(h, i, b + 1, total, arrived) == before[b := Release(h[b], total, arrived)]
  {
  }

  lemma RangeAllRelease(h: Histories, i: nat, j: nat, total: nat, arrived: nat)
    requires RangeReleasable(h, i, j, total, arrived)
    ensures AllRelease(ExpectedFrom(h, i, j), total, arrived)
  {
  }

  lemma CreditStep(h: Histories, i: nat, b: nat, total: nat, arrived: nat)
    requires i <= b && RangeReleasable(h, i, b + 1, total, arrived)
    requires AllRelease(ExpectedFrom(h, i, b), total, arrived)
    requires AllRelease(ExpectedFrom(h, i, b + 1), total, arrived)
    ensures CreditSum(ExpectedFrom(h, i, b + 1), total, arrived) ==
      CreditSum(ExpectedFrom(h, i, b), total, arrived) + Actual(Expected(h[b]), total, arrived)
  {
  }

  ghost predicate Unreleased(w: Waits, h: Histories, i: nat, j: nat) {
    forall b :: i <= b < j ==> b in h && !h[b].released && BatchTotal(w, b) <= h[b].amount
  }

  /** Releasing a range of batches adds at most what the range is credited. */
  lemma {:induction false} ReleaseRangeOwes(w: Waits, h: Histories, i: nat, j: nat, total: nat, arrived: nat)
    requires i <= j && RangeReleasable(h, i, j, total, arrived)
    requires AllRelease(ExpectedFrom(h, i, j), total, arrived)
    requires Unreleased(w, h, i, j)
    ensures Owed(w, ReleaseRange(h, i, j, total, arrived))
      <= Owed(w, h) + CreditSum(ExpectedFrom(h, i, j), total, arrived)
    decreases j
  {
    if i == j {
      assert ReleaseRange(h, i, j, total, arrived) == h;
    } else {
      var b := j - 1;
      RangeAllRelease(h, i, b, total, arrived);
      ReleaseRangeOwes(w, h, i, b, total, arrived);
      var before := ReleaseRange(h, i, b, total, arrived);
      ReleaseRangeStep(h, i, b, total, arrived);
      ReleaseOneOwes(w, before, b, total, arrived);
      CreditStep(h, i, b, total, arrived);
    }
  }

  /** One round: the debt grows by at most the credit of the round. */
  lemma ProcessOwes(s: Storage, time: nat, bank: nat)
    requires Process(s, time, bank).Ok?
    requires forall b :: b in s.histories ==> BatchTotal(s.waits, b) <= s.histories[b].amount
    ensures Owed(s.waits, Process(s, time, bank).value.histories)
      <= Owed(s.waits, s.histories) + RoundCredit(s, time, bank)
  {
    var first, end := RoundStart(s), RoundEnd(s, time);
    if first < end {
      var us := RoundExpected(s, time);
      RangeAllRelease(s.histories, first, end, SumSeq(us), Arrived(s, bank));
      ReleaseRangeOwes(s.waits, s.histories, first, end, SumSeq(us), Arrived(s, bank));
    }
  }

  /** Paying one user takes exactly that user's part off the debt. */
  lemma OwedByUser(w: Waits, h: Histories, user: Addr)
    ensures Owed(w, h) == Sum(OfUser(Payable(w, h), user)) + Sum(NotOfUser(Payable(w, h), user))
  {
    var p := Payable(w, h);
    SumSplit(p, OfUser(p, user), NotOfUser(p, user));
  }
}
