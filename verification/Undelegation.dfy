/** `pick_validator`: the closed batch is undelegated from randomly drawn
    validators until the claim is met. */
module Undelegations {
  import opened Decimals

  datatype Delegation = Delegation(validator: string, denom: string, amount: nat)

  datatype Undelegate = Undelegate(validator: string, amount: nat)

  function Total(ds: seq<Delegation>): nat {
    if |ds| == 0 then 0 else Total(ds[..|ds| - 1]) + ds[|ds| - 1].amount
  }

  function MessageTotal(ms: seq<Undelegate>): nat {
    if |ms| == 0 then 0 else ms[0].amount + MessageTotal(ms[1..])
  }

  function RemoveAt(ds: seq<Delegation>, k: nat): seq<Delegation>
    requires k < |ds|
  {
    ds[..k] + ds[k + 1..]
  }

  /** What the draws amount to. `rng(i) % |ds|` stands for the index drawn in
      round `i`; None is the panic of drawing from an empty list. */
  function Pick(ds: seq<Delegation>, claim: nat, rng: nat -> nat, i: nat): Option<seq<Undelegate>>
    decreases |ds|
  {
    if claim == 0 then Some([])
    else if |ds| == 0 then None
    else
      var k := rng(i) % |ds|;
      var taken := Min(ds[k].amount, claim);
      Prepend(MessageFor(ds[k].validator, taken), Pick(RemoveAt(ds, k), claim - taken, rng, i + 1))
  }

  function Prepend(sent: seq<Undelegate>, rest: Option<seq<Undelegate>>): Option<seq<Undelegate>> {
    if rest.None? then None else Some(sent + rest.value)
  }

  function MessageFor(validator: string, amount: nat): seq<Undelegate> {
    if amount > 0 then [Undelegate(validator, amount)] else []
  }

  /** The loop of the contract. */
  method PickValidator(delegations: seq<Delegation>, claim: nat, rng: nat -> nat)
    returns (messages: Option<seq<Undelegate>>)
    ensures messages == Pick(delegations, claim, rng, 0)
  {
    var sent: seq<Undelegate> := [];
    var claimed: nat := claim;
    var iterationIndex: nat := 0;
    var deletable := delegations;
    PrependNothing(Pick(delegations, claim, rng, 0));
    while claimed > 0
      invariant Pick(delegations, claim, rng, 0) == Prepend(sent, Pick(deletable, claimed, rng, iterationIndex))
      decreases |deletable|
    {
      if |deletable| == 0 {
        return None;
      }
      var randomIndex := rng(iterationIndex) % |deletable|;
      PickStep(sent, deletable, claimed, rng, iterationIndex);
      var delegation := deletable[randomIndex];
      deletable := deletable[..randomIndex] + deletable[randomIndex + 1..];
      var undelegated: nat;
      if delegation.amount > claimed {
        undelegated := claimed;
        claimed := 0;
      } else {
        undelegated := delegation.amount;
        claimed := claimed - delegation.amount;
      }
      if undelegated > 0 {
        sent := sent + [Undelegate(delegation.validator, undelegated)];
      } else {
        assert sent + [] == sent;
      }
      iterationIndex := iterationIndex + 1;
    }
    assert sent + [] == sent;
    return Some(sent);
  }

  lemma PrependNothing(rest: Option<seq<Undelegate>>)
    ensures Prepend([], rest) == rest
  {
    if rest.Some? {
      assert [] + rest.value == rest.value;
    }
  }

  lemma PickStep(sent: seq<Undelegate>, ds: seq<Delegation>, claim: nat, rng: nat -> nat, i: nat)
    requires claim > 0 && |ds| > 0
    ensures var k := rng(i) % |ds|; var taken := Min(ds[k].amount, claim);
      Prepend(sent, Pick(ds, claim, rng, i)) ==
      Prepend(sent + MessageFor(ds[k].validator, taken), Pick(RemoveAt(ds, k), claim - taken, rng, i + 1))
  {
    var k := rng(i) % |ds|;
    var taken := Min(ds[k].amount, claim);
    var rest := Pick(RemoveAt(ds, k), claim - taken, rng, i + 1);
    if rest.Some? {
      var m := MessageFor(ds[k].validator, taken);
      assert sent + (m + rest.value) == sent + m + rest.value;
    }
  }

  // ---------------------------------------------------------- properties

  lemma {:induction false} TotalRemoveAt(ds: seq<Delegation>, k: nat)
    requires k < |ds|
    ensures Total(ds) == Total(RemoveAt(ds, k)) + ds[k].amount
    decreases |ds|
  {
    var n := |ds| - 1;
    if k == n {
      assert RemoveAt(ds, k) == ds[..n];
    } else {
      TotalRemoveAt(ds[..n], k);
      var less := RemoveAt(ds, k);
      assert less[..|less| - 1] == RemoveAt(ds[..n], k);
      assert less[|less| - 1] == ds[n];
    }
  }

  /** The draws succeed, whatever is drawn, exactly when the delegations cover the claim. */
  lemma {:induction false} PickSucceedsIff(ds: seq<Delegation>, claim: nat, rng: nat -> nat, i: nat)
    ensures Pick(ds, claim, rng, i).Some? <==> claim <= Total(ds)
    decreases |ds|
  {
    if claim != 0 && |ds| > 0 {
      var k := rng(i) % |ds|;
      TotalRemoveAt(ds, k);
      PickSucceedsIff(RemoveAt(ds, k), claim - Min(ds[k].amount, claim), rng, i + 1);
    }
  }

  /** The messages add up to the claim. */
  lemma {:induction false} PickAddsUp(ds: seq<Delegation>, claim: nat, rng: nat -> nat, i: nat)
    requires Pick(ds, claim, rng, i).Some?
    ensures MessageTotal(Pick(ds, claim, rng, i).value) == claim
    decreases |ds|
  {
    if claim != 0 {
      var k := rng(i) % |ds|;
      var taken := Min(ds[k].amount, claim);
      PickAddsUp(RemoveAt(ds, k), claim - taken, rng, i + 1);
      TakenPrepend(Pick(RemoveAt(ds, k), claim - taken, rng, i + 1).value, ds[k].validator, taken, "");
    }
  }

  predicate DistinctValidators(ds: seq<Delegation>) {
    forall i, j :: 0 <= i < j < |ds| ==> ds[i].validator != ds[j].validator
  }

  function ValidatorsOf(ds: seq<Delegation>): set<string> {
    set d <- ds :: d.validator
  }

  /** What the messages take from one validator in all. */
  function Taken(ms: seq<Undelegate>, validator: string): nat {
    if |ms| == 0 then 0
    else (if ms[0].validator == validator then ms[0].amount else 0) + Taken(ms[1..], validator)
  }

  predicate WithinDelegations(ds: seq<Delegation>, ms: seq<Undelegate>) {
    forall i :: 0 <= i < |ds| ==> Taken(ms, ds[i].validator) <= ds[i].amount
  }

  /** The chain's effect of the messages. */
  function After(ds: seq<Delegation>, ms: seq<Undelegate>): (r: seq<Delegation>)
    requires WithinDelegations(ds, ms)
    ensures |r| == |ds|
  {
    seq(|ds|, i requires 0 <= i < |ds| => ds[i].(amount := ds[i].amount - Taken(ms, ds[i].validator)))
  }

  predicate DistinctMessages(ms: seq<Undelegate>) {
    forall i, j :: 0 <= i < j < |ms| ==> ms[i].validator != ms[j].validator
  }

  lemma {:induction false} TakenPrepend(ms: seq<Undelegate>, validator: string, amount: nat, v: string)
    ensures Taken(MessageFor(validator, amount) + ms, v) ==
      (if v == validator then amount else 0) + Taken(ms, v)
    ensures MessageTotal(MessageFor(validator, amount) + ms) == amount + MessageTotal(ms)
  {
    var all := MessageFor(validator, amount) + ms;
    if amount > 0 {
      assert all[1..] == ms;
    } else {
      assert all == ms;
    }
  }

  lemma {:induction false} TakenOutside(ms: seq<Undelegate>, v: string)
    requires forall m :: m in ms ==> m.validator != v
    ensures Taken(ms, v) == 0
  {
    if |ms| == 0 {
    } else {
      assert ms[0] in ms;
      TakenOutside(ms[1..], v);
    }
  }

  /** The messages add up to the claim, are positive, use every validator at most
      once and never beyond its delegation, and name only delegated validators. */
  predicate Exact(ds: seq<Delegation>, claim: nat, ms: seq<Undelegate>) {
    && MessageTotal(ms) == claim
    && (forall m :: m in ms ==> m.amount > 0 && m.validator in ValidatorsOf(ds))
    && DistinctMessages(ms)
    && WithinDelegations(ds, ms)
  }

  /** Whatever is drawn, a covered claim is undelegated exactly. */
  lemma {:induction false} PickIsExact(ds: seq<Delegation>, claim: nat, rng: nat -> nat, i: nat)
    requires DistinctValidators(ds) && claim <= Total(ds)
    ensures Pick(ds, claim, rng, i).Some? && Exact(ds, claim, Pick(ds, claim, rng, i).value)
    decreases |ds|
  {
    hide Exact, DistinctValidators, ValidatorsOf;
    if claim == 0 {
      NothingIsExact(ds);
    } else {
      var k := rng(i) % |ds|;
      var taken := Min(ds[k].amount, claim);
      TotalRemoveAt(ds, k);
      RemovedIsFresh(ds, k);
      PickIsExact(RemoveAt(ds, k), claim - taken, rng, i + 1);
      ExactStep(ds, k, claim, taken, Pick(RemoveAt(ds, k), claim - taken, rng, i + 1).value);
    }
  }

  lemma NothingIsExact(ds: seq<Delegation>)
    ensures Exact(ds, 0, [])
  {
  }

  lemma ExactStep(ds: seq<Delegation>, k: nat, claim: nat, taken: nat, later: seq<Undelegate>)
    requires k < |ds| && DistinctValidators(ds) && taken <= claim && taken <= ds[k].amount
    requires Exact(RemoveAt(ds, k), claim - taken, later)
    ensures Exact(ds, claim, MessageFor(ds[k].validator, taken) + later)
  {
    var ms := MessageFor(ds[k].validator, taken) + later;
    RemovedIsFresh(ds, k);
    TakenOutside(later, ds[k].validator);
    TakenPrependAll(later, ds[k].validator, taken);
    TakenPrepend(later, ds[k].validator, taken, "");
    WithinAfterPrepend(ds, k, later, ms, taken);
    assert forall i :: 0 <= i < |later| ==> later[i] in later;
  }

  lemma TakenPrependAll(ms: seq<Undelegate>, validator: string, amount: nat)
    ensures forall v ::
      Taken(MessageFor(validator, amount) + ms, v) == (if v == validator then amount else 0) + Taken(ms, v)
  {
    forall v: string
      ensures Taken(MessageFor(validator, amount) + ms, v) == (if v == validator then amount else 0) + Taken(ms, v)
    {
      TakenPrepend(ms, validator, amount, v);
    }
  }

  lemma RemovedIsFresh(ds: seq<Delegation>, k: nat)
    requires k < |ds| && DistinctValidators(ds)
    ensures DistinctValidators(RemoveAt(ds, k))
    ensures ds[k].validator !in ValidatorsOf(RemoveAt(ds, k))
    ensures ValidatorsOf(RemoveAt(ds, k)) <= ValidatorsOf(ds)
  {
  }

  lemma WithinAfterPrepend(ds: seq<Delegation>, k: nat, later: seq<Undelegate>, ms: seq<Undelegate>, taken: nat)
    requires k < |ds| && taken <= ds[k].amount
    requires Taken(later, ds[k].validator) == 0
    requires WithinDelegations(RemoveAt(ds, k), later)
    requires forall v :: Taken(ms, v) == (if v == ds[k].validator then taken else 0) + Taken(later, v)
    requires DistinctValidators(ds)
    ensures WithinDelegations(ds, ms)
  {
    var rest := RemoveAt(ds, k);
    forall j | 0 <= j < |ds|
      ensures Taken(ms, ds[j].validator) <= ds[j].amount
    {
      if j != k {
        assert ds[j] == rest[if j < k then j else j - 1];
      }
    }
  }

  function TakenSum(ds: seq<Delegation>, ms: seq<Undelegate>): nat {
    if |ds| == 0 then 0 else TakenSum(ds[..|ds| - 1], ms) + Taken(ms, ds[|ds| - 1].validator)
  }

  lemma {:induction false} AfterTotal(ds: seq<Delegation>, ms: seq<Undelegate>)
    requires WithinDelegations(ds, ms)
    ensures Total(After(ds, ms)) == Total(ds) - TakenSum(ds, ms)
  {
    if |ds| == 0 {
    } else {
      var n := |ds| - 1;
      assert forall i :: 0 <= i < n ==> ds[..n][i] == ds[i];
      AfterTotal(ds[..n], ms);
      assert After(ds, ms)[..n] == After(ds[..n], ms);
    }
  }

  lemma {:induction false} TakenSumCons(ds: seq<Delegation>, ms: seq<Undelegate>)
    requires DistinctValidators(ds) && |ms| > 0
    ensures TakenSum(ds, ms) == TakenSum(ds, ms[1..]) +
      (if ms[0].validator in ValidatorsOf(ds) then ms[0].amount else 0)
  {
    if |ds| == 0 {
    } else {
      var n := |ds| - 1;
      TakenSumCons(ds[..n], ms);
      assert ds == ds[..n] + [ds[n]];
      assert ValidatorsOf(ds) == ValidatorsOf(ds[..n]) + {ds[n].validator};
      assert ds[n].validator !in ValidatorsOf(ds[..n]);
    }
  }

  lemma {:induction false} TakenSumIsMessageTotal(ds: seq<Delegation>, ms: seq<Undelegate>)
    requires DistinctValidators(ds)
    requires forall m :: m in ms ==> m.validator in ValidatorsOf(ds)
    ensures TakenSum(ds, ms) == MessageTotal(ms)
  {
    if |ms| == 0 {
      NothingTaken(ds);
    } else {
      assert ms[0] in ms;
      TakenSumCons(ds, ms);
      TakenSumIsMessageTotal(ds, ms[1..]);
    }
  }

  lemma NothingTaken(ds: seq<Delegation>)
    ensures TakenSum(ds, []) == 0
  {
  }

  /** Executed by the chain, the messages lower the bonded total by exactly the claim. */
  lemma PickLowersTotal(ds: seq<Delegation>, claim: nat, rng: nat -> nat)
    requires DistinctValidators(ds) && claim <= Total(ds)
    ensures Pick(ds, claim, rng, 0).Some? && WithinDelegations(ds, Pick(ds, claim, rng, 0).value)
    ensures Total(After(ds, Pick(ds, claim, rng, 0).value)) == Total(ds) - claim
  {
    PickIsExact(ds, claim, rng, 0);
    var ms := Pick(ds, claim, rng, 0).value;
    AfterTotal(ds, ms);
    TakenSumIsMessageTotal(ds, ms);
  }

  // ----------------------------------------------------------- order of draws

  /** All delegations in the order in which the draws would take them. */
  function DrawOrder(ds: seq<Delegation>, rng: nat -> nat, i: nat): (order: seq<Delegation>)
    ensures |order| == |ds|
    decreases |ds|
  {
    if |ds| == 0 then []
    else
      var k := rng(i) % |ds|;
      [ds[k]] + DrawOrder(ds[..k] + ds[k + 1..], rng, i + 1)
  }

  lemma {:induction false} DrawOrderIsPermutation(ds: seq<Delegation>, rng: nat -> nat, i: nat)
    ensures multiset(DrawOrder(ds, rng, i)) == multiset(ds)
    decreases |ds|
  {
    if |ds| > 0 {
      var k := rng(i) % |ds|;
      DrawOrderIsPermutation(ds[..k] + ds[k + 1..], rng, i + 1);
      DrawnAndRest(ds, k);
    }
  }

  lemma DrawnAndRest(ds: seq<Delegation>, k: nat)
    requires k < |ds|
    ensures multiset(ds) == multiset([ds[k]]) + multiset(ds[..k] + ds[k + 1..])
  {
    assert ds == ds[..k] + ([ds[k]] + ds[k + 1..]);
  }

  lemma TotalCons(d: Delegation, ds: seq<Delegation>)
    ensures Total([d] + ds) == d.amount + Total(ds)
  {
    TotalRemoveAt([d] + ds, 0);
    assert RemoveAt([d] + ds, 0) == ds;
  }

  /** The part of `claim` left for a validator that is drawn after `before` coins. */
  function LeftFor(amount: nat, claim: nat, before: nat): (left: nat)
    ensures left <= amount && (left > 0 ==> before + left <= claim)
  {
    if claim <= before then 0 else Min(amount, claim - before)
  }

  /** Every validator gives up all it has until the claim is used up: whichever is drawn
      at place `t` loses its delegation or, if that is less, what those before it left
      of the claim. */
  lemma {:induction false} PickInDrawOrder(ds: seq<Delegation>, claim: nat, rng: nat -> nat, i: nat, t: nat)
    requires DistinctValidators(ds) && claim <= Total(ds) && t < |ds|
    ensures Pick(ds, claim, rng, i).Some?
    ensures var order := DrawOrder(ds, rng, i);
      Taken(Pick(ds, claim, rng, i).value, order[t].validator) ==
      LeftFor(order[t].amount, claim, Total(order[..t]))
    decreases |ds|
  {
    hide Total, Taken, Pick, DistinctValidators, ValidatorsOf, LeftFor;
    PickSucceedsIff(ds, claim, rng, i);
    var order := DrawOrder(ds, rng, i);
    if claim == 0 {
      NothingPicked(ds, rng, i);
      TakenOutside([], order[t].validator);
    } else {
      var k := rng(i) % |ds|;
      var rest, taken := RemoveAt(ds, k), Min(ds[k].amount, claim);
      RemovedIsFresh(ds, k);
      PickOneMore(ds, claim, rng, i, order[t].validator);
      if t == 0 {
        NotTakenAgain(ds, k, claim - taken, rng, i + 1);
        assert order[..0] == [];
        LeftForFirst(ds[k].amount, claim);
      } else {
        var later := DrawOrder(rest, rng, i + 1);
        PickInDrawOrder(rest, claim - taken, rng, i + 1, t - 1);
        assert order[..t] == [ds[k]] + later[..t - 1];
        TotalCons(ds[k], later[..t - 1]);
        DrawnFromRest(rest, rng, i + 1, t - 1);
        LeftForLater(ds[k].amount, later[t - 1].amount, claim, Total(later[..t - 1]));
      }
    }
  }

  lemma NothingPicked(ds: seq<Delegation>, rng: nat -> nat, i: nat)
    ensures Pick(ds, 0, rng, i) == Some([])
  {
  }

  /** The first draw takes from the drawn validator, the others from the rest. */
  lemma PickOneMore(ds: seq<Delegation>, claim: nat, rng: nat -> nat, i: nat, v: string)
    requires 0 < claim <= Total(ds) && |ds| > 0
    ensures var k := rng(i) % |ds|; var taken := Min(ds[k].amount, claim);
      && claim - taken <= Total(RemoveAt(ds, k))
      && Pick(ds, claim, rng, i).Some? && Pick(RemoveAt(ds, k), claim - taken, rng, i + 1).Some?
      && Taken(Pick(ds, claim, rng, i).value, v) == (if v == ds[k].validator then taken else 0) +
         Taken(Pick(RemoveAt(ds, k), claim - taken, rng, i + 1).value, v)
  {
    hide Total, Taken, MessageFor;
    var k := rng(i) % |ds|;
    var taken := Min(ds[k].amount, claim);
    TotalRemoveAt(ds, k);
    PickSucceedsIff(RemoveAt(ds, k), claim - taken, rng, i + 1);
    TakenPrepend(Pick(RemoveAt(ds, k), claim - taken, rng, i + 1).value, ds[k].validator, taken, v);
  }

  lemma LeftForFirst(amount: nat, claim: nat)
    ensures LeftFor(amount, claim, Total([])) == Min(amount, claim)
  {
  }

  lemma LeftForLater(first: nat, amount: nat, claim: nat, before: nat)
    ensures LeftFor(amount, claim - Min(first, claim), before) == LeftFor(amount, claim, first + before)
  {
  }

  lemma NotTakenAgain(ds: seq<Delegation>, k: nat, claim: nat, rng: nat -> nat, i: nat)
    requires k < |ds| && DistinctValidators(ds) && claim <= Total(RemoveAt(ds, k))
    ensures Pick(RemoveAt(ds, k), claim, rng, i).Some?
    ensures Taken(Pick(RemoveAt(ds, k), claim, rng, i).value, ds[k].validator) == 0
  {
    hide Pick, Total, Taken, RemoveAt;
    RemovedIsFresh(ds, k);
    PickIsExact(RemoveAt(ds, k), claim, rng, i);
    TakenOutside(Pick(RemoveAt(ds, k), claim, rng, i).value, ds[k].validator);
  }

  lemma DrawnFromRest(ds: seq<Delegation>, rng: nat -> nat, i: nat, t: nat)
    requires t < |ds|
    ensures DrawOrder(ds, rng, i)[t].validator in ValidatorsOf(ds)
  {
    var order := DrawOrder(ds, rng, i);
    DrawOrderIsPermutation(ds, rng, i);
    assert order[t] in multiset(order);
  }
}
