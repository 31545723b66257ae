/** The two rotary layouts of the sparse indexer of `glm52_indexer_oracle.py`, and the score built on them. Both rotate
    the pairs (2j, 2j+1) of the first dimensions; the reference layout de-interleaves the result into two halves, the
    device layout writes each pair back in place. */
module Rope {
  import opened LinearMaps

  /** The angle tables at one position. */
  datatype Angle = Angle(cos: Vector, sin: Vector)

  /** The rotated even and odd components of the pairs. */
  function RotatedEvens(x: Vector, a: Angle): Vector { j => x(2 * j) * a.cos(j) - x(2 * j + 1) * a.sin(j) }

  function RotatedOdds(x: Vector, a: Angle): Vector { j => x(2 * j) * a.sin(j) + x(2 * j + 1) * a.cos(j) }

  /** All of `e`, then all of `o`, then the tail of `x`. */
  function InHalves(e: Vector, o: Vector, x: Vector, half: nat): Vector {
    i => if 0 <= i < half then e(i) else if half <= i < 2 * half then o(i - half) else x(i)
  }

  /** `e` and `o` alternating, then the tail of `x`. */
  function InPairs(e: Vector, o: Vector, x: Vector, half: nat): Vector {
    i => if 0 <= i < 2 * half then (if i % 2 == 0 then e(i / 2) else o(i / 2)) else x(i)
  }

  /** Reference layout. */
  function Deinterleaved(x: Vector, a: Angle, half: nat): Vector {
    InHalves(RotatedEvens(x, a), RotatedOdds(x, a), x, half)
  }

  /** Device layout. */
  function Interleaved(x: Vector, a: Angle, half: nat): Vector {
    InPairs(RotatedEvens(x, a), RotatedOdds(x, a), x, half)
  }

  function AsVector(s: seq<real>): Vector { i => if 0 <= i < |s| then s[i] else 0.0 }

  /** The pair at 2j is turned by the angle of j. */
  predicate PairTurned(out: seq<real>, x: seq<real>, a: Angle, j: nat)
    requires |out| == |x| && 2 * j + 1 < |x|
  {
    && out[2 * j] == x[2 * j] * a.cos(j) - x[2 * j + 1] * a.sin(j)
    && out[2 * j + 1] == x[2 * j] * a.sin(j) + x[2 * j + 1] * a.cos(j)
  }

  /** The reference layout by cosine and sine: the pairs' first components, their second ones, and the rest. */
  lemma DeinterleavedElements(x: Vector, a: Angle, half: nat, j: nat)
    ensures j < half ==>
              && Deinterleaved(x, a, half)(j) == x(2 * j) * a.cos(j) - x(2 * j + 1) * a.sin(j)
              && Deinterleaved(x, a, half)(half + j) == x(2 * j) * a.sin(j) + x(2 * j + 1) * a.cos(j)
    ensures j >= 2 * half ==> Deinterleaved(x, a, half)(j) == x(j)
  {
  }

  lemma TurnedPair(x: seq<real>, a: Angle, j: nat)
    requires 2 * j + 1 < |x|
    ensures RotatedEvens(AsVector(x), a)(j) == x[2 * j] * a.cos(j) - x[2 * j + 1] * a.sin(j)
    ensures RotatedOdds(AsVector(x), a)(j) == x[2 * j] * a.sin(j) + x[2 * j + 1] * a.cos(j)
  {
  }

  lemma InterleavedElements(out: seq<real>, x: seq<real>, a: Angle, half: nat)
    requires |out| == |x| && 2 * half <= |x|
    requires forall i :: 0 <= i < |x| ==> out[i] == Interleaved(AsVector(x), a, half)(i)
    ensures forall j: nat :: j < half ==> PairTurned(out, x, a, j)
    ensures out[2 * half..] == x[2 * half..]
  {
    var v := AsVector(x);
    forall j: nat | j < half
      ensures PairTurned(out, x, a, j)
    {
      assert out[2 * j] == RotatedEvens(v, a)(j) && out[2 * j + 1] == RotatedOdds(v, a)(j);
      TurnedPair(x, a, j);
    }
  }

  /** The two strided writes of the device path, into a copy of the head. */
  method RotateInterleaved(x: seq<real>, a: Angle, half: nat) returns (out: array<real>)
    requires 2 * half <= |x|
    ensures fresh(out) && out.Length == |x|
    ensures forall i :: 0 <= i < |x| ==> out[i] == Interleaved(AsVector(x), a, half)(i)
    ensures forall j: nat :: j < half ==> PairTurned(out[..], x, a, j)
    ensures out[2 * half..] == x[2 * half..]
  {
    var v := AsVector(x);
    out := new real[|x|](i requires 0 <= i < |x| => x[i]);
    WriteStrided(out, x, 0, half, j => v(2 * j) * a.cos(j) - v(2 * j + 1) * a.sin(j));
    WriteStrided(out, out[..], 1, half, j => v(2 * j) * a.sin(j) + v(2 * j + 1) * a.cos(j));
    InterleavedElements(out[..], x, a, half);
  }

  /** out[phase : 2*half : 2] = values */
  method WriteStrided(out: array<real>, before: seq<real>, phase: nat, half: nat, values: int -> real)
    requires phase < 2 && 2 * half <= out.Length && before == out[..]
    modifies out
    ensures forall i :: 0 <= i < out.Length ==>
              out[i] == if i < 2 * half && i % 2 == phase then values(i / 2) else before[i]
  {
    for j := 0 to half
      invariant forall i :: 0 <= i < out.Length ==>
                  out[i] == if i < 2 * j && i % 2 == phase then values(i / 2) else before[i]
    {
      out[2 * j + phase] := values(j);
    }
  }

  // --- the layouts differ by one permutation ------------------------------

  /** Where dimension `i` of the reference layout sits in the device layout. */
  function DevicePosition(half: nat, i: nat): nat {
    if i < half then 2 * i else if i < 2 * half then 2 * (i - half) + 1 else i
  }

  lemma LayoutsPermuted(e: Vector, o: Vector, x: Vector, half: nat, i: nat)
    ensures InHalves(e, o, x, half)(i) == InPairs(e, o, x, half)(DevicePosition(half, i))
  {
  }

  /** The position map is a bijection of the head's dimensions, the same for every vector and position. */
  lemma DevicePositionBijective(half: nat, hd: nat, i: nat, j: nat)
    requires 2 * half <= hd && i < hd && j < hd
    ensures DevicePosition(half, i) < hd
    ensures DevicePosition(half, i) == DevicePosition(half, j) ==> i == j
    ensures exists k: nat :: k < hd && DevicePosition(half, k) == i
  {
    var k := if 2 * half <= i then i else if i % 2 == 0 then i / 2 else half + i / 2;
    assert DevicePosition(half, k) == i;
  }

  function Evens(x: Vector): Vector { j => x(2 * j) }

  function Odds(x: Vector): Vector { j => x(2 * j + 1) }

  lemma {:induction false} DotOfPairs(half: nat, x: Vector, y: Vector)
    ensures Dot(2 * half, x, y) == Dot(half, Evens(x), Evens(y)) + Dot(half, Odds(x), Odds(y))
  {
    if half > 0 {
      DotOfPairs(half - 1, x, y);
      assert Dot(2 * half, x, y) == Dot(2 * half - 1, x, y) + x(2 * half - 1) * y(2 * half - 1);
      assert Dot(2 * half - 1, x, y) == Dot(2 * half - 2, x, y) + x(2 * half - 2) * y(2 * half - 2);
    }
  }

  lemma HalvesDot(e: Vector, o: Vector, x: Vector, e2: Vector, o2: Vector, x2: Vector, half: nat)
    ensures Dot(half + half, InHalves(e, o, x, half), InHalves(e2, o2, x2, half)) == Dot(half, e, e2) + Dot(half, o, o2)
  {
    var u, v := InHalves(e, o, x, half), InHalves(e2, o2, x2, half);
    DotConcat(half, half, u, v);
    DotSame(half, u, v, e, e2);
    DotSame(half, Tail(u, half), Tail(v, half), o, o2);
  }

  lemma PairsDot(e: Vector, o: Vector, x: Vector, e2: Vector, o2: Vector, x2: Vector, half: nat)
    ensures Dot(2 * half, InPairs(e, o, x, half), InPairs(e2, o2, x2, half)) == Dot(half, e, e2) + Dot(half, o, o2)
  {
    var y, z := InPairs(e, o, x, half), InPairs(e2, o2, x2, half);
    DotOfPairs(half, y, z);
    forall j | 0 <= j < half
      ensures Evens(y)(j) == e(j) && Odds(y)(j) == o(j) && Evens(z)(j) == e2(j) && Odds(z)(j) == o2(j)
    {
    }
    DotSame(half, Evens(y), Evens(z), e, e2);
    DotSame(half, Odds(y), Odds(z), o, o2);
  }

  lemma SameDotOfLayouts(e: Vector, o: Vector, x: Vector, e2: Vector, o2: Vector, x2: Vector, half: nat, hd: nat)
    requires 2 * half <= hd
    ensures Dot(hd, InHalves(e, o, x, half), InHalves(e2, o2, x2, half)) ==
            Dot(hd, InPairs(e, o, x, half), InPairs(e2, o2, x2, half))
  {
    var u, v := InHalves(e, o, x, half), InHalves(e2, o2, x2, half);
    var y, z := InPairs(e, o, x, half), InPairs(e2, o2, x2, half);
    var m, n := 2 * half, hd - 2 * half;
    HalvesDot(e, o, x, e2, o2, x2, half);
    PairsDot(e, o, x, e2, o2, x2, half);
    DotConcat(m, n, u, v);
    DotConcat(m, n, y, z);
    forall i | 0 <= i < n
      ensures Tail(u, m)(i) == Tail(y, m)(i) && Tail(v, m)(i) == Tail(z, m)(i)
    {
    }
    DotSame(n, Tail(u, m), Tail(v, m), Tail(y, m), Tail(z, m));
  }

  /** For every query, key, pair of positions and head width, the two layouts give the same dot product. */
  lemma SameDot(q: Vector, aq: Angle, k: Vector, ak: Angle, half: nat, hd: nat)
    requires 2 * half <= hd
    ensures Dot(hd, Deinterleaved(q, aq, half), Deinterleaved(k, ak, half)) ==
            Dot(hd, Interleaved(q, aq, half), Interleaved(k, ak, half))
  {
    SameDotOfLayouts(RotatedEvens(q, aq), RotatedOdds(q, aq), q, RotatedEvens(k, ak), RotatedOdds(k, ak), k, half, hd);
  }

  // --- the index score ----------------------------------------------------

  function Relu(x: real): real { if x < 0.0 then 0.0 else x }

  /** Head weights, each scaled by `headScale`, against the rectified dot products; the sum times `scale`. */
  function IndexScore(heads: nat, w: Vector, headScale: real, dots: Vector, scale: real): real {
    Dot(heads, Weighted(w, headScale), Rectified(dots)) * scale
  }

  function Weighted(w: Vector, s: real): Vector { h => w(h) * s }

  function Rectified(dots: Vector): Vector { h => Relu(dots(h)) }

  lemma SameScore(heads: nat, w: Vector, headScale: real, d: Vector, d2: Vector, scale: real)
    requires forall h :: d(h) == d2(h)
    ensures IndexScore(heads, w, headScale, d, scale) == IndexScore(heads, w, headScale, d2, scale)
  {
    DotSame(heads, Weighted(w, headScale), Rectified(d), Weighted(w, headScale), Rectified(d2));
  }

  /** The score by its heads: weight and head scale times what of the dot product is above zero. */
  lemma IndexScoreElements(heads: nat, w: Vector, headScale: real, dots: Vector, scale: real, x: Vector, y: Vector)
    requires forall h :: 0 <= h < heads ==> x(h) == headScale * w(h)
    requires forall h :: 0 <= h < heads ==> y(h) == if dots(h) > 0.0 then dots(h) else 0.0
    ensures IndexScore(heads, w, headScale, dots, scale) == scale * Dot(heads, x, y)
  {
    DotSame(heads, Weighted(w, headScale), Rectified(dots), x, y);
  }

  /** Every rotated head against the rotated key, in the layout with the rotated half in front. */
  function DeinterleavedDots(hd: nat, qs: int -> Vector, aq: Angle, k: Vector, ak: Angle, half: nat): Vector {
    h => Dot(hd, Deinterleaved(qs(h), aq, half), Deinterleaved(k, ak, half))
  }

  /** The same in the layout of adjacent pairs. */
  function InterleavedDots(hd: nat, qs: int -> Vector, aq: Angle, k: Vector, ak: Angle, half: nat): Vector {
    h => Dot(hd, Interleaved(qs(h), aq, half), Interleaved(k, ak, half))
  }

  /** The layout cannot change a score: the rotated heads `qs` against one rotated key. */
  lemma SameIndexScore(heads: nat, w: Vector, headScale: real, scale: real,
                       qs: int -> Vector, aq: Angle, k: Vector, ak: Angle, half: nat, hd: nat)
    requires 2 * half <= hd
    ensures IndexScore(heads, w, headScale, DeinterleavedDots(hd, qs, aq, k, ak, half), scale) ==
            IndexScore(heads, w, headScale, InterleavedDots(hd, qs, aq, k, ak, half), scale)
  {
    var d, d2 := DeinterleavedDots(hd, qs, aq, k, ak, half), InterleavedDots(hd, qs, aq, k, ak, half);
    forall h
      ensures d(h) == d2(h)
    {
      SameDot(qs(h), aq, k, ak, half, hd);
    }
    SameScore(heads, w, headScale, d, d2, scale);
  }
}
