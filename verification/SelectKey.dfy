/**
  `glm52_indexer_oracle.py`, `dsa_pack_key` and `plow_topk`: the selection key of the sparse indexer.
  A score is its f32 bit pattern.  The key's upper 32 bits are the pattern made monotone, its lower 20
  bits count the position down, so that one unsigned comparison orders by score and then by position.
 */
module SelectKey {
  import opened Common
  import opened Bf16

  const POSITIONS := 0x10_0000

  /** `~bits` for a negative pattern, the sign bit set for the others. */
  function OrderedBits(u: Bits32): Bits32 {
    if Negative(u) then 0xFFFF_FFFF - u else u + SIGN
  }

  function PackKey(u: Bits32, t: nat, length: nat): nat {
    OrderedBits(u) * POSITIONS + ((length as int) - 1 - t) % POSITIONS
  }

  // --- what the key compares ----------------------------------------------

  /** The total order of section 5.10 of IEEE 754-2019: numbers by value, -0 below +0, and NaN patterns as if the
      values went on beyond the infinities. */
  ghost predicate TotalLess(u: Bits32, v: Bits32) {
    Value(u) < Value(v) || (Value(u) == Value(v) && Negative(u) && !Negative(v))
  }

  lemma OrderedBitsIsTotalOrder(u: Bits32, v: Bits32)
    ensures OrderedBits(u) < OrderedBits(v) <==> TotalLess(u, v)
    ensures OrderedBits(u) == OrderedBits(v) ==> u == v
  {
    MagnitudeOrder(Unsigned(u), Unsigned(v));
    MagnitudeOrder(Unsigned(v), Unsigned(u));
    MagnitudeOrder(Unsigned(u), 0);
    MagnitudeOrder(Unsigned(v), 0);
    ZeroMagnitude();
  }

  /** With at most 2^20 positions, one key comparison is score descending, then position ascending. */
  lemma KeyOrder(u: Bits32, t: nat, v: Bits32, t2: nat, length: nat)
    requires t < length <= POSITIONS && t2 < length
    ensures PackKey(u, t, length) > PackKey(v, t2, length) <==> TotalLess(v, u) || (u == v && t < t2)
    ensures PackKey(u, t, length) == PackKey(v, t2, length) ==> u == v && t == t2
    ensures PackKey(u, t, length) < 0x10_0000_0000_0000
  {
    OrderedBitsIsTotalOrder(u, v);
    OrderedBitsIsTotalOrder(v, u);
  }

  /** Lowest index wins a tie between all equal scores exactly up to 2^20 positions; beyond, the count wraps. */
  lemma TieBreakIff(u: Bits32, length: nat)
    ensures (forall t, t2 :: 0 <= t < t2 < length ==> PackKey(u, t, length) > PackKey(u, t2, length)) <==>
            length <= POSITIONS
  {
    if length <= POSITIONS {
      forall t, t2 | 0 <= t < t2 < length
        ensures PackKey(u, t, length) > PackKey(u, t2, length)
      {
        KeyOrder(u, t, u, t2, length);
      }
    } else {
      var t := length - 1 - POSITIONS;
      assert PackKey(u, t, length) == PackKey(u, length - 1, length);
    }
  }

  /** The documented order: larger score first, equal scores by lowest index. */
  ghost predicate ScoreThenIndex(u: Bits32, t: nat, v: Bits32, t2: nat) {
    Value(u) > Value(v) || (Value(u) == Value(v) && t < t2)
  }

  /** The key follows the documented order of numbers except on a -0 and a +0, where it ignores the index. */
  lemma DocumentedOrderIff(u: Bits32, t: nat, v: Bits32, t2: nat, length: nat)
    requires !IsNaN(u) && !IsNaN(v) && t < length <= POSITIONS && t2 < length && t != t2
    ensures (PackKey(u, t, length) > PackKey(v, t2, length) <==> ScoreThenIndex(u, t, v, t2)) <==>
            !(u == SIGN && v == 0 && t < t2) && !(u == 0 && v == SIGN && t2 < t)
  {
    KeyOrder(u, t, v, t2, length);
    MagnitudeOrder(Unsigned(u), Unsigned(v));
    MagnitudeOrder(Unsigned(v), Unsigned(u));
    MagnitudeOrder(Unsigned(u), 0);
    MagnitudeOrder(Unsigned(v), 0);
    ZeroMagnitude();
  }

  /** Of -0 at position 0 and +0 at position 1, equal scores, the key prefers position 1; and one position past
      2^20 the first and the last of equal scores have one key. */
  lemma TiesLost()
    ensures ScoreThenIndex(SIGN, 0, 0, 1) && PackKey(SIGN, 0, 2) < PackKey(0, 1, 2)
    ensures PackKey(0, 0, POSITIONS + 1) == PackKey(0, POSITIONS, POSITIONS + 1)
  {
    ZeroMagnitude();
    KeyOrder(0, 1, SIGN, 0, 2);
    OrderedBitsIsTotalOrder(SIGN, 0);
  }

  // --- the selected set ---------------------------------------------------

  datatype Item = Item(key: nat, pos: nat)

  /** Tuple comparison, as a descending sort uses it. */
  predicate Above(a: Item, b: Item) {
    a.key > b.key || (a.key == b.key && a.pos > b.pos)
  }

  ghost predicate Descending(s: seq<Item>) {
    forall i, j :: 0 <= i < j < |s| ==> s[i] == s[j] || Above(s[i], s[j])
  }

  function KeyedAt(scores: seq<Bits32>, t: nat): Item
    requires t < |scores|
  {
    Item(PackKey(scores[t], t, |scores|), t)
  }

  function Keyed(scores: seq<Bits32>): seq<Item> {
    seq(|scores|, t requires 0 <= t < |scores| => KeyedAt(scores, t))
  }

  /** Insertion into a descending list, the step of the sort. */
  method SortDescending(items: array<Item>)
    modifies items
    ensures Descending(items[..]) && multiset(items[..]) == multiset(old(items[..]))
  {
    for n := 0 to items.Length
      invariant Descending(items[..n])
      invariant multiset(items[..]) == multiset(old(items[..]))
    {
      SiftUp(items, n);
    }
    assert items[..] == items[..items.Length];
  }

  method SiftUp(items: array<Item>, n: nat)
    requires n < items.Length && Descending(items[..n])
    modifies items
    ensures Descending(items[..n + 1])
    ensures multiset(items[..]) == multiset(old(items[..]))
  {
    var j := n;
    while 0 < j && Above(items[j], items[j - 1])
      invariant 0 <= j <= n && DescendingBut(items[..], n, j)
      invariant multiset(items[..]) == multiset(old(items[..]))
    {
      ghost var before := items[..];
      items[j], items[j - 1] := items[j - 1], items[j];
      assert items[..] == before[j := before[j - 1]][j - 1 := before[j]];
      SwapDown(before, n, j);
      j := j - 1;
    }
    Sifted(items[..], n, j);
  }

  /** The first `n + 1` items are in order, but for what stands before item `j`. */
  ghost predicate DescendingBut(s: seq<Item>, n: nat, j: nat)
    requires n < |s|
  {
    forall a, b :: 0 <= a < b <= n && b != j ==> s[a] == s[b] || Above(s[a], s[b])
  }

  lemma SwapDown(s: seq<Item>, n: nat, j: nat)
    requires 0 < j <= n < |s| && DescendingBut(s, n, j) && Above(s[j], s[j - 1])
    ensures DescendingBut(s[j := s[j - 1]][j - 1 := s[j]], n, j - 1)
  {
  }

  lemma Sifted(s: seq<Item>, n: nat, j: nat)
    requires j <= n < |s| && DescendingBut(s, n, j) && (j == 0 || !Above(s[j], s[j - 1]))
    ensures Descending(s[..n + 1])
  {
    assert forall a :: 0 <= a < j - 1 ==> s[a] == s[j - 1] || Above(s[a], s[j - 1]);
  }

  /** Every chosen position beats every position left out. */
  ghost predicate IsTopK(scores: seq<Bits32>, k: nat, chosen: set<nat>) {
    && (forall t :: t in chosen ==> t < |scores|)
    && |chosen| == (if k < |scores| then k else |scores|)
    && forall t, t2: nat :: t in chosen && t2 < |scores| && t2 !in chosen ==>
         Above(KeyedAt(scores, t), KeyedAt(scores, t2))
  }

  method PlowTopK(scores: seq<Bits32>, k: nat) returns (chosen: set<nat>)
    ensures IsTopK(scores, k, chosen)
  {
    var n := |scores|;
    var items := new Item[n];
    for t := 0 to n
      invariant items[..t] == Keyed(scores)[..t]
    {
      items[t] := Item(PackKey(scores[t], t, n), t);
    }
    assert items[..] == Keyed(scores);
    SortDescending(items);
    var m := if k < n then k else n;
    chosen := {};
    for i := 0 to m
      invariant chosen == set x | 0 <= x < i :: items[x].pos
    {
      chosen := chosen + {items[i].pos};
    }
    SortedPrefixIsTopK(scores, k, items[..], m, chosen);
  }

  /** A sorted copy lists every position exactly once. */
  lemma SortedCovers(scores: seq<Bits32>, sorted: seq<Item>)
    requires multiset(sorted) == multiset(Keyed(scores))
    ensures |sorted| == |scores|
    ensures forall i :: 0 <= i < |sorted| ==>
              sorted[i].pos < |scores| && sorted[i] == KeyedAt(scores, sorted[i].pos)
    ensures forall i, j :: 0 <= i < j < |sorted| ==> sorted[i].pos != sorted[j].pos
    ensures forall t: nat :: t < |scores| ==> KeyedAt(scores, t) in sorted
  {
    var keyed := Keyed(scores);
    assert |sorted| == |multiset(sorted)| == |multiset(keyed)| == |keyed|;
    forall i | 0 <= i < |sorted|
      ensures sorted[i].pos < |scores| && sorted[i] == KeyedAt(scores, sorted[i].pos)
    {
      assert sorted[i] in multiset(keyed);
    }
    forall i, j | 0 <= i < j < |sorted|
      ensures sorted[i].pos != sorted[j].pos
    {
      DistinctMultiplicity(keyed, sorted[i]);
      if sorted[i] == sorted[j] {
        RepeatMultiplicity(sorted, i, j);
      }
    }
    forall t: nat | t < |scores|
      ensures KeyedAt(scores, t) in sorted
    {
      assert keyed[t] in multiset(keyed);
    }
  }

  lemma SortedPrefixIsTopK(scores: seq<Bits32>, k: nat, sorted: seq<Item>, m: nat, chosen: set<nat>)
    requires Descending(sorted) && multiset(sorted) == multiset(Keyed(scores))
    requires m == (if k < |scores| then k else |scores|) <= |sorted|
    requires chosen == set x | 0 <= x < m :: sorted[x].pos
    ensures IsTopK(scores, k, chosen)
  {
    SortedCovers(scores, sorted);
    var positions := seq(|sorted|, i requires 0 <= i < |sorted| => sorted[i].pos);
    DistinctCount(positions, m);
    assert (set x | 0 <= x < m :: positions[x]) == set x | 0 <= x < m :: sorted[x].pos by {
      assert forall x :: 0 <= x < m ==> positions[x] == sorted[x].pos;
    }
    forall t, t2: nat | t in chosen && t2 < |scores| && t2 !in chosen
      ensures Above(KeyedAt(scores, t), KeyedAt(scores, t2))
    {
      var x :| 0 <= x < m && sorted[x].pos == t;
      var y :| 0 <= y < |sorted| && sorted[y] == KeyedAt(scores, t2);
      assert m <= y;
    }
  }

  lemma TopKInclusion(scores: seq<Bits32>, k: nat, a: set<nat>, b: set<nat>)
    requires IsTopK(scores, k, a) && IsTopK(scores, k, b)
    ensures a <= b
  {
    forall t | t in a
      ensures t in b
    {
      if t !in b && b <= a {
        SubsetOfSameSize(b, a);
      } else if t !in b {
        var t2 :| t2 in b && t2 !in a;
      }
    }
  }

  /** The selection is a function of the scores: no other set of that size beats what it leaves out. */
  lemma TopKUnique(scores: seq<Bits32>, k: nat, a: set<nat>, b: set<nat>)
    requires IsTopK(scores, k, a) && IsTopK(scores, k, b)
    ensures a == b
  {
    TopKInclusion(scores, k, a, b);
    TopKInclusion(scores, k, b, a);
  }

  /** Up to 2^20 positions, a chosen position has a larger score, or an equal one at a lower index. */
  lemma TopKByScore(scores: seq<Bits32>, k: nat, chosen: set<nat>, t: nat, t2: nat)
    requires |scores| <= POSITIONS && IsTopK(scores, k, chosen)
    requires t in chosen && t2 < |scores| && t2 !in chosen
    ensures TotalLess(scores[t2], scores[t]) || (scores[t] == scores[t2] && t < t2)
  {
    assert Above(KeyedAt(scores, t), KeyedAt(scores, t2));
    KeyOrder(scores[t], t, scores[t2], t2, |scores|);
  }
}
