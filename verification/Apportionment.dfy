/** How `process_withdraw_rate` spreads the difference between the expected and
    the arrived coins over the batches it releases. The theorems speak about any
    list of expected amounts and any arrived amount. */
module Apportionment {
  import opened Decimals
  import opened Sums

  /** A batch's part of the difference: two nested floors. */
  function Share(expected: nat, total: nat, difference: nat): nat
    requires total > 0
  {
    Times(difference, FromRatio(expected, total))
  }

  /** On a surplus the correction `checked_sub(1)` needs a share of at least one. */
  predicate CanRelease(expected: nat, total: nat, arrived: nat) {
    total > 0 && (total < arrived ==> Share(expected, total, arrived - total) >= 1)
  }

  /** The amount credited to one batch. The shortfall branch keeps only the
      magnitude of its last subtraction, as the contract does. */
  function Actual(expected: nat, total: nat, arrived: nat): nat
    requires CanRelease(expected, total, arrived)
  {
    var slashed := FromSubtraction(total, arrived);
    var share := Share(expected, total, slashed.abs);
    if slashed.negative then expected + (share - 1)
    else
      var corrected := if slashed.abs != 0 then share + 1 else share;
      FromSubtraction(expected, corrected).abs
  }

  /** The shortfall subtraction would go below zero for this batch. */
  predicate Wraps(expected: nat, total: nat, arrived: nat)
    requires total > 0
  {
    arrived < total && expected < Share(expected, total, total - arrived) + 1
  }

  predicate AllRelease(us: seq<nat>, total: nat, arrived: nat) {
    forall i :: 0 <= i < |us| ==> CanRelease(us[i], total, arrived)
  }

  function ShareSum(us: seq<nat>, total: nat, difference: nat): nat
    requires total > 0
  {
    if |us| == 0 then 0
    else ShareSum(us[..|us| - 1], total, difference) + Share(us[|us| - 1], total, difference)
  }

  function CreditSum(us: seq<nat>, total: nat, arrived: nat): nat
    requires AllRelease(us, total, arrived)
  {
    if |us| == 0 then 0
    else CreditSum(us[..|us| - 1], total, arrived) + Actual(us[|us| - 1], total, arrived)
  }

  function WrapCount(us: seq<nat>, total: nat, arrived: nat): nat
    requires total > 0
  {
    if |us| == 0 then 0
    else WrapCount(us[..|us| - 1], total, arrived) + (if Wraps(us[|us| - 1], total, arrived) then 1 else 0)
  }

  // ------------------------------------------------------------ one batch

  /** Every batch is credited its proportional part `expected` x `arrived` / `total`,
      up to one coin and the rounding of its weight (two coins on a surplus). */
  lemma ActualIsProportional(expected: nat, total: nat, arrived: nat)
    requires CanRelease(expected, total, arrived)
    ensures var actual := Actual(expected, total, arrived);
      && (arrived == total ==> actual == expected)
      && (arrived < total && !Wraps(expected, total, arrived) ==>
        && expected * arrived - total <= total * actual
        && total * ONE * actual < expected * arrived * ONE + total * (total - arrived))
      && (arrived < total && Wraps(expected, total, arrived) ==> actual == 1)
      && (total < arrived ==>
        && total * actual <= expected * arrived - total
        && expected * arrived * ONE < total * ONE * (actual + 2) + total * (arrived - total))
  {
    var difference := if arrived < total then total - arrived else arrived - total;
    ShareBounds(expected, total, difference);
    var share := Share(expected, total, difference);
    if arrived == total {
      NoDifferenceNoShare(expected, total);
    } else if arrived < total {
      WrapsExactly(expected, total, arrived);
      if !Wraps(expected, total, arrived) {
        ShortfallPart(expected, total, arrived, share, ONE);
      }
    } else {
      SurplusPart(expected, total, arrived, share, ONE);
    }
  }

  lemma ShortfallPart(u: nat, t: nat, a: nat, share: nat, one: nat)
    requires a < t && t * share <= u * (t - a)
    requires t * one * (share + 1) >= u * (t - a) * one - t * (t - a) + 1
    ensures u * a - t <= t * (u - share - 1)
    ensures t * one * (u - share - 1) < u * a * one + t * (t - a)
  {
    assert u * (t - a) == u * t - u * a;
    assert t * (u - share - 1) == u * t - t * share - t;
    assert u * (t - a) * one == u * t * one - u * a * one;
    assert t * one * (u - share - 1) == u * t * one - t * one * (share + 1);
  }

  lemma SurplusPart(u: nat, t: nat, a: nat, share: nat, one: nat)
    requires t < a && t * share <= u * (a - t)
    requires t * one * (share + 1) >= u * (a - t) * one - t * (a - t) + 1
    ensures t * (u + share - 1) <= u * a - t
    ensures u * a * one < t * one * (u + share - 1 + 2) + t * (a - t)
  {
    assert u * (a - t) == u * a - u * t;
    assert t * (u + share - 1) == u * t + t * share - t;
    assert u * (a - t) * one == u * a * one - u * t * one;
    assert t * one * (u + share - 1 + 2) == u * t * one + t * one * (share + 1);
  }

  /** The share is the exact proportional part, rounded down by less than one
      unit plus `difference` atoms. */
  lemma ShareBounds(expected: nat, total: nat, difference: nat)
    requires total > 0
    ensures var share := Share(expected, total, difference);
      && total * share <= expected * difference
      && (difference > 0 ==>
        total * ONE * (share + 1) >= expected * difference * ONE - total * difference + 1)
  {
    var w := FromRatio(expected, total);
    var share := Share(expected, total, difference);
    FromRatioFloor(expected, total);
    TimesFloor(difference, w);
    ShareUpper(expected, total, difference, w, share, ONE);
    if difference > 0 {
      ShareLower(expected, total, difference, w, share, ONE);
    }
  }

  lemma ShareUpper(u: nat, t: nat, s: nat, w: nat, share: nat, one: nat)
    requires one > 0 && w * t <= u * one && share * one <= s * w
    ensures t * share <= u * s
  {
    MulMono(share * one, s * w, t);
    MulMono(w * t, u * one, s);
    assert (t * share) * one == share * one * t;
    assert s * w * t == w * t * s;
    assert u * one * s == (u * s) * one;
    MulCancelLe(t * share, u * s, one);
  }

  lemma ShareLower(u: nat, t: nat, s: nat, w: nat, share: nat, one: nat)
    requires s > 0 && t > 0 && u * one < w * t + t && s * w < share * one + one
    ensures t * one * (share + 1) >= u * s * one - t * s + 1
  {
    MulMono(u * one + 1 - t, w * t, s);
    MulMono(s * w + 1, (share + 1) * one, t);
    calc {
      t * one * (share + 1);
      (share + 1) * one * t;
      >= (s * w + 1) * t;
      == w * t * s + t;
      >= (u * one + 1 - t) * s + t;
      == u * one * s + s - t * s + t;
      == u * s * one - t * s + s + t;
    }
  }

  /** Exactly when the shortfall subtraction wraps: the batch was worth nothing,
      or nothing arrived and the batch's weight needs no rounding. */
  lemma WrapsExactly(expected: nat, total: nat, arrived: nat)
    requires arrived < total
    ensures Wraps(expected, total, arrived) <==>
      expected == 0 || (arrived == 0 && expected * ONE % total == 0)
    ensures Wraps(expected, total, arrived) ==> Actual(expected, total, arrived) == 1
    ensures !Wraps(expected, total, arrived) ==>
      Actual(expected, total, arrived) == expected - Share(expected, total, total - arrived) - 1
  {
    var s := total - arrived;
    var w := FromRatio(expected, total);
    var share := Share(expected, total, s);
    ShareBounds(expected, total, s);
    FromRatioFloor(expected, total);
    TimesFloor(s, w);
    MulMono(s, total, expected);
    assert total * share <= expected * total;
    MulCancelLe(share, expected, total);
    if expected > 0 && arrived > 0 {
      StrictlyBelow(expected, total, s, share);
    } else if expected > 0 {
      WholeLoss(expected, total, w, share, ONE);
    }
  }

  lemma StrictlyBelow(u: nat, t: nat, s: nat, share: nat)
    requires u > 0 && s < t && t * share <= u * s
    ensures share < u
  {
    if share >= u {
      MulMono(u, share, t);
      MulMono(s + 1, t, u);
    }
  }

  /** When everything is lost, the share is the batch less the rounding of its weight. */
  lemma WholeLoss(u: nat, t: nat, w: nat, share: nat, one: nat)
    requires t > 0 && one > 0 && w == u * one / t && share == t * w / one
    ensures share < u <==> u * one % t != 0
    ensures share + 1 == u <==> 0 < u * one % t <= one
  {
    DivFloor(u * one, t);
    DivFloor(t * w, one);
    assert u * one == t * w + u * one % t;
    if u * one % t == 0 {
      DivUnique(t * w, one, u);
    } else {
      if share >= u {
        MulMono(u, share, one);
      }
      if u * one % t <= one {
        DivUnique(t * w, one, u - 1);
      }
    }
  }

  // ------------------------------------------------------------ all batches

  lemma {:induction false} ShareSumBounds(us: seq<nat>, total: nat, difference: nat)
    requires total > 0
    ensures var shares := ShareSum(us, total, difference);
      && total * shares <= SumSeq(us) * difference
      && (difference > 0 ==>
        total * ONE * (shares + |us|) >= SumSeq(us) * difference * ONE - |us| * (total * difference) + |us|)
  {
    if |us| == 0 {
    } else {
      var n := |us| - 1;
      ShareSumBounds(us[..n], total, difference);
      ShareBounds(us[n], total, difference);
      var a, b := ShareSum(us[..n], total, difference), Share(us[n], total, difference);
      AddUpper(total, difference, a, b, SumSeq(us[..n]), us[n]);
      if difference > 0 {
        AddLower(total * ONE, difference, ONE, total * difference, n, a, b, SumSeq(us[..n]), us[n]);
      }
    }
  }

  lemma AddUpper(t: nat, s: nat, a: nat, b: nat, p: nat, q: nat)
    requires t * a <= p * s && t * b <= q * s
    ensures t * (a + b) <= (p + q) * s
  {
  }

  lemma AddLower(k: nat, s: nat, one: nat, c: nat, n: nat, a: nat, b: nat, p: nat, q: nat)
    requires k * (a + n) >= p * s * one - n * c + n
    requires k * (b + 1) >= q * s * one - c + 1
    ensures k * (a + b + (n + 1)) >= (p + q) * s * one - (n + 1) * c + (n + 1)
  {
    assert k * (a + b + (n + 1)) == k * (a + n) + k * (b + 1);
    assert (p + q) * s * one == p * s * one + q * s * one;
    assert (n + 1) * c == n * c + c;
  }

  /** The shares add up to the whole difference, less at most one unit a batch
      and the rounding of the weights. */
  lemma ShareSumOfWhole(us: seq<nat>, difference: nat)
    requires SumSeq(us) > 0
    ensures var shares := ShareSum(us, SumSeq(us), difference);
      && shares <= difference
      && (difference > 0 ==> difference - shares - |us| <= (|us| * difference - 1) / ONE)
  {
    var t, n := SumSeq(us), |us|;
    var shares := ShareSum(us, t, difference);
    ShareSumBounds(us, t, difference);
    MulCancelLe(shares, difference, t);
    if difference > 0 {
      WholeLower(t, difference, ONE, n, shares);
      DivAtLeast(n * difference - 1, ONE, difference - shares - n);
    }
  }

  lemma WholeLower(t: nat, s: nat, one: nat, n: nat, shares: nat)
    requires t > 0 && n > 0
    requires t * one * (shares + n) >= t * s * one - n * (t * s) + n
    ensures (s - shares - n) * one <= n * s - 1
  {
    var gap := one * s - n * s - one * (shares + n);
    assert gap * t == t * s * one - n * (t * s) - t * one * (shares + n);
    if gap >= 0 {
      MulMono(0, gap, t);
    }
    assert (s - shares - n) * one == gap + n * s;
  }

  lemma ShareAtMost(expected: nat, total: nat, difference: nat)
    requires 0 < total && difference <= total
    ensures Share(expected, total, difference) <= expected
  {
    ShareBounds(expected, total, difference);
    MulMono(difference, total, expected);
    MulCancelLe(Share(expected, total, difference), expected, total);
  }

  lemma {:induction false} ShortfallCredit(us: seq<nat>, total: nat, arrived: nat)
    requires arrived < total
    ensures AllRelease(us, total, arrived)
    ensures CreditSum(us, total, arrived) ==
      SumSeq(us) - ShareSum(us, total, total - arrived) - |us| + 2 * WrapCount(us, total, arrived)
  {
    if |us| == 0 {
    } else {
      var n := |us| - 1;
      ShortfallCredit(us[..n], total, arrived);
      WrapsExactly(us[n], total, arrived);
      ShareAtMost(us[n], total, total - arrived);
    }
  }

  lemma {:induction false} SurplusCredit(us: seq<nat>, total: nat, arrived: nat)
    requires 0 < total < arrived && AllRelease(us, total, arrived)
    ensures CreditSum(us, total, arrived) == SumSeq(us) + ShareSum(us, total, arrived - total) - |us|
  {
    if |us| == 0 {
    } else {
      var n := |us| - 1;
      forall i | 0 <= i < n
        ensures CanRelease(us[..n][i], total, arrived)
      {
        assert us[..n][i] == us[i];
      }
      SurplusCredit(us[..n], total, arrived);
    }
  }

  lemma NoDifferenceNoShare(expected: nat, total: nat)
    requires total > 0
    ensures Share(expected, total, 0) == 0
  {
    TimesFloor(0, FromRatio(expected, total));
  }

  lemma {:induction false} ExactCredit(us: seq<nat>, total: nat)
    requires total > 0
    ensures AllRelease(us, total, total) && CreditSum(us, total, total) == SumSeq(us)
  {
    if |us| == 0 {
    } else {
      var n := |us| - 1;
      ExactCredit(us[..n], total);
      NoDifferenceNoShare(us[n], total);
    }
  }

  /** The apportionment theorem, for every list of batches and every arrival.
      The rounding term vanishes while (batches x difference) stays within `ONE`. */
  lemma ApportionmentBounds(us: seq<nat>, arrived: nat)
    requires SumSeq(us) > 0 && AllRelease(us, SumSeq(us), arrived)
    ensures var total, n, credit := SumSeq(us), |us|, CreditSum(us, SumSeq(us), arrived);
      && (arrived == total ==> credit == arrived)
      && (arrived < total ==>
        var wraps := WrapCount(us, total, arrived);
        arrived - n + 2 * wraps <= credit <= arrived + 2 * wraps + (n * (total - arrived) - 1) / ONE)
      && (arrived > total ==>
        arrived - 2 * n - (n * (arrived - total) - 1) / ONE <= credit <= arrived - n)
  {
    var total := SumSeq(us);
    if arrived == total {
      ExactCredit(us, total);
    } else if arrived < total {
      ShortfallCredit(us, total, arrived);
      ShareSumOfWhole(us, total - arrived);
    } else {
      SurplusCredit(us, total, arrived);
      ShareSumOfWhole(us, arrived - total);
    }
  }

  // -------------------------------------------------- when nothing is over-credited

  lemma {:induction false} NoWraps(us: seq<nat>, total: nat, arrived: nat)
    requires total > 0
    ensures WrapCount(us, total, arrived) == 0 <==> forall i :: 0 <= i < |us| ==> !Wraps(us[i], total, arrived)
  {
    if |us| == 0 {
    } else {
      var n := |us| - 1;
      NoWraps(us[..n], total, arrived);
      assert forall i :: 0 <= i < n ==> us[..n][i] == us[i];
      assert us[n] in us;
    }
  }

  /** Computable from the expected amounts and the arrival alone: the corrections by
      one cover the difference and twice the batches whose subtraction wraps. */
  predicate Covered(us: seq<nat>, arrived: nat)
    requires SumSeq(us) > 0
  {
    var total := SumSeq(us);
    arrived < total ==>
      total - arrived + 2 * WrapCount(us, total, arrived) <= ShareSum(us, total, total - arrived) + |us|
  }

  /** A round credits at most what arrived if and only if it is covered. */
  lemma CreditsAtMostArrivedExactly(us: seq<nat>, arrived: nat)
    requires SumSeq(us) > 0 && AllRelease(us, SumSeq(us), arrived)
    ensures CreditSum(us, SumSeq(us), arrived) <= arrived <==> Covered(us, arrived)
  {
    if arrived < SumSeq(us) {
      ShortfallCredit(us, SumSeq(us), arrived);
    } else {
      ApportionmentBounds(us, arrived);
    }
  }

  /** Every batch is worth something, and if coins are missing some did arrive. */
  predicate Clean(us: seq<nat>, arrived: nat) {
    SumSeq(us) <= arrived || (arrived > 0 && forall i :: 0 <= i < |us| ==> us[i] > 0)
  }

  /** A clean round is covered while (batches x shortfall) stays within `ONE`. */
  lemma CleanIsCovered(us: seq<nat>, arrived: nat)
    requires SumSeq(us) > 0 && Clean(us, arrived)
    requires arrived < SumSeq(us) ==> |us| * (SumSeq(us) - arrived) <= ONE
    ensures Covered(us, arrived)
  {
    var total, n := SumSeq(us), |us|;
    if arrived < total {
      CleanHasNoWraps(us, arrived);
      ShareSumOfWhole(us, total - arrived);
      SmallRounding(n, total - arrived);
    }
  }

  lemma CleanHasNoWraps(us: seq<nat>, arrived: nat)
    requires arrived < SumSeq(us) && Clean(us, arrived)
    ensures WrapCount(us, SumSeq(us), arrived) == 0
  {
    forall i | 0 <= i < |us|
      ensures !Wraps(us[i], SumSeq(us), arrived)
    {
      WrapsExactly(us[i], SumSeq(us), arrived);
    }
    NoWraps(us, SumSeq(us), arrived);
  }

  /** A clean round credits at most what arrived, and at least that less one unit
      a batch on a shortfall, two units a batch on a surplus. */
  lemma CleanRound(us: seq<nat>, arrived: nat)
    requires SumSeq(us) > 0 && AllRelease(us, SumSeq(us), arrived)
    requires Clean(us, arrived)
    requires |us| * FromSubtraction(SumSeq(us), arrived).abs <= ONE
    ensures var total, n, credit := SumSeq(us), |us|, CreditSum(us, SumSeq(us), arrived);
      && credit <= arrived
      && (arrived == total ==> credit == arrived)
      && (arrived < total ==> arrived - n <= credit)
      && (total < arrived ==> arrived - 2 * n <= credit)
  {
    ApportionmentBounds(us, arrived);
    CleanIsCovered(us, arrived);
    CreditsAtMostArrivedExactly(us, arrived);
    if SumSeq(us) < arrived {
      SmallRounding(|us|, arrived - SumSeq(us));
    }
  }

  lemma SmallRounding(n: nat, difference: nat)
    requires n * difference <= ONE && difference > 0
    ensures (n * difference - 1) / ONE <= 0
  {
    DivAtMost(n * difference - 1, ONE, 0);
  }

  /** With nothing arrived a batch is credited nothing if and only if its weight is
      rounded, and by no more than one coin's worth. */
  lemma EmptyArrivalBatch(u: nat, total: nat)
    requires total > 0
    ensures CanRelease(u, total, 0)
    ensures Actual(u, total, 0) == 0 <==> 0 < u * ONE % total <= ONE
  {
    WrapsExactly(u, total, 0);
    WholeLoss(u, total, FromRatio(u, total), Share(u, total, total), ONE);
    assert u == 0 ==> u * ONE % total == 0;
  }

  /** With nothing arrived, nothing is credited if and only if that holds of every batch. */
  lemma EmptyArrivalExactly(us: seq<nat>)
    requires SumSeq(us) > 0
    ensures AllRelease(us, SumSeq(us), 0)
    ensures CreditSum(us, SumSeq(us), 0) == 0 <==>
      forall i :: 0 <= i < |us| ==> 0 < us[i] * ONE % SumSeq(us) <= ONE
  {
    hide Actual;
    forall i | 0 <= i < |us|
      ensures CanRelease(us[i], SumSeq(us), 0)
      ensures Actual(us[i], SumSeq(us), 0) == 0 <==> 0 < us[i] * ONE % SumSeq(us) <= ONE
    {
      EmptyArrivalBatch(us[i], SumSeq(us));
    }
    CreditedNothing(us, SumSeq(us), 0);
  }

  lemma {:induction false} CreditedNothing(us: seq<nat>, total: nat, arrived: nat)
    requires AllRelease(us, total, arrived)
    ensures CreditSum(us, total, arrived) == 0 <==>
      forall i :: 0 <= i < |us| ==> Actual(us[i], total, arrived) == 0
  {
    hide Actual, CanRelease;
    if |us| == 0 {
    } else {
      var n := |us| - 1;
      assert forall i :: 0 <= i < n ==> us[..n][i] == us[i];
      CreditedNothing(us[..n], total, arrived);
    }
  }

  /** A single ripe batch is over-credited by one unit whenever nothing arrived. */
  lemma LoneBatchWithoutArrival(u: nat)
    requires u > 0
    ensures CanRelease(u, u, 0) && Actual(u, u, 0) == 1
  {
    WrapsExactly(u, u, 0);
    assert u * ONE % u == 0 by {
      DivUnique(u * ONE, u, ONE);
    }
  }

  /** A worthless batch can be over-credited although coins did arrive. */
  lemma WorthlessBatchOverCredits()
    ensures var us := [0, 2, 2, 2]; var arrived := 3;
      SumSeq(us) == 6 && AllRelease(us, 6, arrived) && CreditSum(us, 6, arrived) == arrived + 1
  {
    var one: seq<nat>, two: seq<nat>, three: seq<nat>, us: seq<nat> := [0], [0, 2], [0, 2, 2], [0, 2, 2, 2];
    assert one[..0] == [] && two[..1] == one && three[..2] == two && us[..3] == three;
    assert SumSeq(one) == 0 && SumSeq(two) == 2 && SumSeq(three) == 4;
    assert Share(2, 6, 3) == 0 && Share(0, 6, 3) == 0;
    assert ShareSum(one, 6, 3) == 0 && ShareSum(two, 6, 3) == 0 && ShareSum(three, 6, 3) == 0;
    assert WrapCount(one, 6, 3) == 1 && WrapCount(two, 6, 3) == 1 && WrapCount(three, 6, 3) == 1;
    ShortfallCredit(us, 6, 3);
  }
}
