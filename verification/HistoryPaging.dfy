/** Paging through the unbond histories (`all_unbond_history`): keys are big-endian
    batch ids, the storage walks keys in byte order, and a page starts behind the
    key of `start` followed by a byte 1. */
module HistoryPaging {
  import opened Decimals
  import opened HubTypes

  type Byte = n: nat | n < 256

  const U64: nat := 0x1_0000_0000_0000_0000
  const MAX_LIMIT: nat := 100
  const DEFAULT_LIMIT: nat := 10

  function BigEndian(n: nat, width: nat): (key: seq<Byte>)
    ensures |key| == width
    decreases width
  {
    if width == 0 then [] else BigEndian(n / 256, width - 1) + [n % 256]
  }

  function Key(id: nat): seq<Byte> {
    BigEndian(id, 8)
  }

  /** Byte order of keys; a proper prefix comes first. */
  predicate KeyLess(a: seq<Byte>, b: seq<Byte>) {
    if |b| == 0 then false
    else if |a| == 0 then true
    else a[0] < b[0] || (a[0] == b[0] && KeyLess(a[1..], b[1..]))
  }

  /** `convert`: the first key of a page. */
  function Convert(start: Option<nat>): Option<seq<Byte>> {
    if start.None? then None else Some(Key(start.value) + [1])
  }

  predicate InRange(id: nat, first: Option<seq<Byte>>) {
    first.None? || !KeyLess(Key(id), first.value)
  }

  function PageLimit(limit: Option<nat>): nat {
    Min(if limit.None? then DEFAULT_LIMIT else limit.value, MAX_LIMIT)
  }

  /** The stored ids in the order the storage yields them. */
  ghost predicate Listing(h: Histories, ids: seq<nat>) {
    && (forall b :: b in ids <==> b in h)
    && (forall i :: 0 <= i < |ids| ==> ids[i] < U64)
    && (forall i, j :: 0 <= i < j < |ids| ==> KeyLess(Key(ids[i]), Key(ids[j])))
  }

  function RangeFrom(ids: seq<nat>, first: Option<seq<Byte>>): seq<nat> {
    if |ids| == 0 then []
    else (if InRange(ids[0], first) then [ids[0]] else []) + RangeFrom(ids[1..], first)
  }

  function Take(ids: seq<nat>, n: nat): seq<nat> {
    ids[..Min(n, |ids|)]
  }

  function PageIds(ids: seq<nat>, start: Option<nat>, limit: Option<nat>): seq<nat> {
    Take(RangeFrom(ids, Convert(start)), PageLimit(limit))
  }

  function Lookup(h: Histories, ids: seq<nat>): seq<UnbondHistory>
    requires forall i :: 0 <= i < |ids| ==> ids[i] in h
  {
    seq(|ids|, i requires 0 <= i < |ids| => h[ids[i]])
  }

  /** The query, as a walk over the stored keys. */
  method AllUnbondHistory(h: Histories, ids: seq<nat>, start: Option<nat>, limit: Option<nat>)
    returns (page: seq<UnbondHistory>)
    requires forall i :: 0 <= i < |ids| ==> ids[i] in h
    ensures forall i :: 0 <= i < |PageIds(ids, start, limit)| ==> PageIds(ids, start, limit)[i] in h
    ensures page == Lookup(h, PageIds(ids, start, limit))
  {
    hide InRange, Convert, PageLimit;
    var first := Convert(start);
    var lim := PageLimit(limit);
    page := [];
    ghost var seen: seq<nat> := [];
    var i := 0;
    while i < |ids| && |page| < lim
      invariant 0 <= i <= |ids| && |page| == |seen| <= lim
      invariant forall j :: 0 <= j < |seen| ==> seen[j] in h && page[j] == h[seen[j]]
      invariant RangeFrom(ids, first) == seen + RangeFrom(ids[i..], first)
    {
      assert ids[i..][0] == ids[i] && ids[i..][1..] == ids[i + 1..];
      if InRange(ids[i], first) {
        assert seen + ([ids[i]] + RangeFrom(ids[i + 1..], first)) == seen + [ids[i]] + RangeFrom(ids[i + 1..], first);
        page := page + [h[ids[i]]];
        seen := seen + [ids[i]];
      } else {
        assert [] + RangeFrom(ids[i + 1..], first) == RangeFrom(ids[i + 1..], first);
      }
      i := i + 1;
    }
    assert PageIds(ids, start, limit) == seen;
  }

  // ------------------------------------------------------------- key order

  lemma {:induction false} KeyLessAppend(a: seq<Byte>, b: seq<Byte>, p: Byte, q: Byte)
    requires |a| == |b|
    ensures KeyLess(a + [p], b + [q]) <==> KeyLess(a, b) || (a == b && p < q)
  {
    if |a| == 0 {
    } else {
      KeyLessAppend(a[1..], b[1..], p, q);
      assert (a + [p])[1..] == a[1..] + [p] && (b + [q])[1..] == b[1..] + [q];
      assert a == [a[0]] + a[1..] && b == [b[0]] + b[1..];
    }
  }

  lemma {:induction false} KeyLessSuffix(a: seq<Byte>, b: seq<Byte>, q: Byte)
    requires |a| == |b|
    ensures KeyLess(a, b + [q]) <==> KeyLess(a, b) || a == b
  {
    if |a| == 0 {
    } else {
      KeyLessSuffix(a[1..], b[1..], q);
      assert (b + [q])[1..] == b[1..] + [q];
      assert a == [a[0]] + a[1..] && b == [b[0]] + b[1..];
    }
  }

  function Pow256(n: nat): nat {
    if n == 0 then 1 else 256 * Pow256(n - 1)
  }

  /** Byte order of fixed-width big-endian numbers is numeric order. */
  lemma {:induction false} BigEndianOrder(a: nat, b: nat, width: nat)
    requires a < Pow256(width) && b < Pow256(width)
    ensures KeyLess(BigEndian(a, width), BigEndian(b, width)) <==> a < b
    ensures BigEndian(a, width) == BigEndian(b, width) <==> a == b
    decreases width
  {
    if width == 0 {
    } else {
      BigEndianOrder(a / 256, b / 256, width - 1);
      var x, y := BigEndian(a / 256, width - 1), BigEndian(b / 256, width - 1);
      KeyLessAppend(x, y, a % 256, b % 256);
      assert (x + [a % 256])[..width - 1] == x && (y + [b % 256])[..width - 1] == y;
      assert (x + [a % 256])[width - 1] == a % 256 && (y + [b % 256])[width - 1] == b % 256;
    }
  }

  lemma SixtyFourBits()
    ensures Pow256(8) == U64
  {
  }

  lemma KeyOrder(a: nat, b: nat)
    requires a < U64 && b < U64
    ensures KeyLess(Key(a), Key(b)) <==> a < b
  {
    SixtyFourBits();
    BigEndianOrder(a, b, 8);
  }

  /** A page started at `s` holds exactly the ids above `s`. */
  lemma PageStartsAfter(id: nat, s: nat)
    requires id < U64 && s < U64
    ensures InRange(id, Convert(Some(s))) <==> s < id
  {
    hide BigEndian;
    SixtyFourBits();
    BigEndianOrder(id, s, 8);
    KeyLessSuffix(Key(id), Key(s), 1);
  }

  // ---------------------------------------------------------------- paging

  /** A client asking again with the last id seen until a page comes back empty,
      or until it has asked `rounds` times. */
  function CollectPages(ids: seq<nat>, start: Option<nat>, limit: Option<nat>, rounds: nat): seq<nat>
    decreases rounds
  {
    if rounds == 0 then []
    else
      var page := PageIds(ids, start, limit);
      if |page| == 0 then []
      else page + CollectPages(ids, Some(page[|page| - 1]), limit, rounds - 1)
  }

  predicate Ascending(ids: seq<nat>) {
    && (forall i :: 0 <= i < |ids| ==> ids[i] < U64)
    && (forall i, j :: 0 <= i < j < |ids| ==> ids[i] < ids[j])
  }

  /** The storage yields the histories in increasing batch order. */
  lemma ListingAscends(h: Histories, ids: seq<nat>)
    requires Listing(h, ids)
    ensures Ascending(ids)
  {
    hide Key;
    forall i, j | 0 <= i < j < |ids|
      ensures ids[i] < ids[j]
    {
      KeyOrder(ids[i], ids[j]);
    }
  }

  lemma {:induction false} RangeOfAll(ids: seq<nat>, first: Option<seq<Byte>>)
    requires forall i :: 0 <= i < |ids| ==> InRange(ids[i], first)
    ensures RangeFrom(ids, first) == ids
  {
    hide InRange;
    if |ids| == 0 {
    } else {
      RangeOfAll(ids[1..], first);
      assert ids == [ids[0]] + ids[1..];
    }
  }

  lemma RangeOfEverything(ids: seq<nat>)
    ensures RangeFrom(ids, Convert(None)) == ids
  {
  }

  lemma {:induction false} RangeAfter(ids: seq<nat>, k: nat)
    requires Ascending(ids) && k < |ids|
    ensures RangeFrom(ids, Convert(Some(ids[k]))) == ids[k + 1..]
  {
    hide InRange, Convert;
    var first := Convert(Some(ids[k]));
    PageStartsAfter(ids[0], ids[k]);
    if k == 0 {
      forall i | 0 <= i < |ids| - 1
        ensures InRange(ids[1..][i], first)
      {
        PageStartsAfter(ids[i + 1], ids[k]);
      }
      RangeOfAll(ids[1..], first);
    } else {
      assert ids[1..][k - 1] == ids[k];
      RangeAfter(ids[1..], k - 1);
      assert ids[1..][k..] == ids[k + 1..];
    }
  }

  lemma {:induction false} CollectAfter(ids: seq<nat>, k: nat, limit: Option<nat>, rounds: nat)
    requires Ascending(ids) && k < |ids| && PageLimit(limit) >= 1 && rounds >= |ids| - k
    ensures CollectPages(ids, Some(ids[k]), limit, rounds) == ids[k + 1..]
    decreases |ids| - k
  {
    hide RangeFrom, Convert, PageLimit;
    RangeAfter(ids, k);
    var n := Min(PageLimit(limit), |ids| - (k + 1));
    assert PageIds(ids, Some(ids[k]), limit) == ids[k + 1..k + 1 + n];
    if n > 0 {
      assert ids[k + 1..k + 1 + n][n - 1] == ids[k + n];
      CollectAfter(ids, k + n, limit, rounds - 1);
      assert ids[k + 1..k + 1 + n] + ids[k + n + 1..] == ids[k + 1..];
    }
  }

  /** Repeated paging lists every history exactly once, in increasing id, if and only
      if the limit is at least one (or there is nothing to list). */
  lemma PagingIsComplete(h: Histories, ids: seq<nat>, limit: Option<nat>, rounds: nat)
    requires Listing(h, ids) && rounds > |ids|
    ensures Ascending(ids)
    ensures CollectPages(ids, None, limit, rounds) == ids <==> PageLimit(limit) >= 1 || |ids| == 0
  {
    hide PageLimit, RangeFrom, Listing, InRange, Ascending, Convert;
    ListingAscends(h, ids);
    RangeOfEverything(ids);
    var n := Min(PageLimit(limit), |ids|);
    var page := PageIds(ids, None, limit);
    assert page == ids[..n];
    if n > 0 {
      CollectAfter(ids, n - 1, limit, rounds - 1);
      assert page[n - 1] == ids[n - 1];
      assert CollectPages(ids, None, limit, rounds) == page + ids[n..];
      assert ids[..n] + ids[n..] == ids;
    } else {
      assert CollectPages(ids, None, limit, rounds) == [];
    }
  }

  // ------------------------------------------------------------- a single page

  /** How many ids at the head of the list are not above `s`. */
  function UpTo(ids: seq<nat>, s: nat): (k: nat)
    ensures k <= |ids|
  {
    if |ids| == 0 || s < ids[0] then 0 else 1 + UpTo(ids[1..], s)
  }

  lemma {:induction false} UpToSplits(ids: seq<nat>, s: nat, i: nat)
    requires Ascending(ids) && i < |ids|
    ensures ids[i] <= s <==> i < UpTo(ids, s)
  {
    if ids[0] <= s && i > 0 {
      UpToSplits(ids[1..], s, i - 1);
    }
  }

  lemma {:induction false} RangeAbove(ids: seq<nat>, s: nat)
    requires Ascending(ids) && s < U64
    ensures RangeFrom(ids, Convert(Some(s))) == ids[UpTo(ids, s)..]
  {
    hide InRange, Convert;
    if |ids| > 0 && ids[0] <= s {
      PageStartsAfter(ids[0], s);
      RangeAbove(ids[1..], s);
    } else {
      forall i | 0 <= i < |ids|
        ensures InRange(ids[i], Convert(Some(s)))
      {
        PageStartsAfter(ids[i], s);
      }
      RangeOfAll(ids, Convert(Some(s)));
    }
  }

  /** A page is the next ids above `start` in increasing order: ten if no limit is given,
      never more than a hundred, and fewer only if there are no more. */
  lemma PageIsExact(h: Histories, ids: seq<nat>, start: Option<nat>, limit: Option<nat>)
    requires Listing(h, ids) && (start.Some? ==> start.value < U64)
    ensures start.Some? ==>
      forall i :: 0 <= i < |ids| ==> (ids[i] <= start.value <==> i < UpTo(ids, start.value))
    ensures var wanted := if limit.None? then 10 else if limit.value < 100 then limit.value else 100;
      var first := if start.None? then 0 else UpTo(ids, start.value);
      PageIds(ids, start, limit) == ids[first..if first + wanted <= |ids| then first + wanted else |ids|]
  {
    hide RangeFrom, Convert, InRange, Listing, Ascending, UpTo;
    ListingAscends(h, ids);
    if start.None? {
      RangeOfEverything(ids);
    } else {
      RangeAbove(ids, start.value);
      forall i | 0 <= i < |ids|
        ensures ids[i] <= start.value <==> i < UpTo(ids, start.value)
      {
        UpToSplits(ids, start.value, i);
      }
    }
    var first := if start.None? then 0 else UpTo(ids, start.value);
    assert RangeFrom(ids, Convert(start)) == ids[first..];
  }
}
