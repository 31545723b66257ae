/**
  `kimi_k27_prep.py`: reading int4 group-32 experts and re-encoding them as block-scaled FP8 or as MXFP4.
  Arithmetic is over the reals; the final cast to e4m3 is a parameter, the MXFP4 grid is modelled.
 */
module ExpertQuant {
  import opened Common
  import opened BlockScale
  import LinearMaps

  const GROUP := 32

  function Min(a: nat, b: nat): nat { if a < b then a else b }

  // --- unpacking ----------------------------------------------------------

  type Int32 = p: int | -0x8000_0000 <= p < 0x8000_0000

  function Pow16(i: nat): nat
    ensures Pow16(i) > 0
  {
    if i == 0 then 1 else 16 * Pow16(i - 1)
  }

  /** `(p >> 4i) & 0xF` on a signed word: arithmetic shift, then mask. */
  function Nibble(p: int, i: nat): (v: nat)
    ensures v < 16
  {
    p / Pow16(i) % 16
  }

  /** The first `n` nibbles as one number. */
  function FromNibbles(p: int, n: nat): nat {
    if n == 0 then 0 else FromNibbles(p, n - 1) + Nibble(p, n - 1) * Pow16(n - 1)
  }

  lemma {:induction false} NibblesAreResidue(p: int, n: nat)
    ensures FromNibbles(p, n) == p % Pow16(n)
  {
    if n > 0 {
      NibblesAreResidue(p, n - 1);
      ResidueSplit(p, Pow16(n - 1), Pow16(n));
    }
  }

  lemma ResidueSplit(p: int, b: nat, c: nat)
    requires b > 0 && c == 16 * b
    ensures p % c == p % b + p / b % 16 * b
  {
    var q, r := p / b, p % b;
    var h, d := q / 16, q % 16;
    Regrouped(p, b, q, r, h, d);
    assert p == p / c * c + p % c;
    LinearMaps.FlatUnique(p / c, p % c, h, d * b + r, c);
  }

  lemma Regrouped(p: int, b: nat, q: int, r: nat, h: int, d: nat)
    requires p == q * b + r && q == 16 * h + d && r < b && d < 16
    ensures p == h * (16 * b) + (d * b + r) && d * b + r < 16 * b
  {
    assert q * b == 16 * h * b + d * b;
    assert d * b <= 15 * b;
  }

  lemma EightNibbles()
    ensures Pow16(8) == 0x1_0000_0000
  {
    assert Pow16(4) == 0x1_0000;
    assert Pow16(6) == 0x100_0000;
  }

  lemma SameResidue(p: Int32, p2: Int32)
    requires p % 0x1_0000_0000 == p2 % 0x1_0000_0000
    ensures p == p2
  {
  }

  /** The eight nibbles of a word determine it: unpacking loses nothing. */
  lemma UnpackLossless(p: Int32, p2: Int32)
    requires forall i: nat :: i < 8 ==> Nibble(p, i) == Nibble(p2, i)
    ensures p == p2
  {
    SameNibbles(p, p2, 8);
    NibblesAreResidue(p, 8);
    NibblesAreResidue(p2, 8);
    EightNibbles();
    SameResidue(p, p2);
  }

  lemma {:induction false} SameNibbles(p: int, p2: int, n: nat)
    requires forall i: nat :: i < n ==> Nibble(p, i) == Nibble(p2, i)
    ensures FromNibbles(p, n) == FromNibbles(p2, n)
  {
    if n > 0 {
      SameNibbles(p, p2, n - 1);
    }
  }

  /** Strided unpacking: nibble `i` of packed column `c` is column 8c + i. */
  method Unpack(packed: array2<Int32>, n: nat, groups: nat) returns (unpacked: array2<int>)
    requires packed.Length0 == n && packed.Length1 == groups
    ensures fresh(unpacked) && unpacked.Length0 == n && unpacked.Length1 == 8 * groups
    ensures forall r, c :: 0 <= r < n && 0 <= c < 8 * groups ==> unpacked[r, c] == Nibble(packed[r, c / 8], c % 8)
  {
    unpacked := new int[n, 8 * groups]((r, c) => 0);
    for i := 0 to 8
      invariant forall r, c :: 0 <= r < n && 0 <= c < 8 * groups && c % 8 < i ==>
                  unpacked[r, c] == Nibble(packed[r, c / 8], c % 8)
    {
      forall r, c | 0 <= r < n && 0 <= c < 8 * groups && c % 8 == i {
        unpacked[r, c] := Nibble(packed[r, c / 8], i);
      }
    }
  }

  /** Unpacking, then the offset and the group scale. */
  method DequantizeExpert(packed: array2<Int32>, scale: array2<real>, n: nat, k: nat) returns (w: array2<real>)
    requires packed.Length0 == scale.Length0 == n && k <= 8 * packed.Length1 && k <= GROUP * scale.Length1
    ensures fresh(w) && w.Length0 == n && w.Length1 == k
    ensures forall r, c :: 0 <= r < n && 0 <= c < k ==>
              w[r, c] == (Nibble(packed[r, c / 8], c % 8) - 8) as real * scale[r, c / GROUP]
  {
    var unpacked := Unpack(packed, n, packed.Length1);
    w := new real[n, k]((r, c) requires 0 <= r < n && 0 <= c < k reads unpacked, scale =>
      (unpacked[r, c] - 8) as real * scale[r, c / GROUP]);
  }

  // --- block-scaled FP8 ---------------------------------------------------

  /** The weight to re-encode, `n` rows and `k` columns. */
  datatype Weight = Weight(n: nat, k: nat, at: (int, int) -> real)

  /** `a` is the largest magnitude in the rectangle. */
  ghost predicate IsAmax(w: Weight, r0: nat, r1: nat, c0: nat, c1: nat, a: real) {
    && a >= 0.0
    && (forall r, c :: r0 <= r < r1 && c0 <= c < c1 ==> Abs(w.at(r, c)) <= a)
    && (a > 0.0 ==> exists r, c :: r0 <= r < r1 && c0 <= c < c1 && Abs(w.at(r, c)) == a)
  }

  lemma AmaxUnique(w: Weight, r0: nat, r1: nat, c0: nat, c1: nat, a: real, b: real)
    requires IsAmax(w, r0, r1, c0, c1, a) && IsAmax(w, r0, r1, c0, c1, b)
    ensures a == b
  {
  }

  method RectAmax(w: Weight, r0: nat, r1: nat, c0: nat, c1: nat) returns (a: real)
    requires r0 <= r1 <= w.n && c0 <= c1 <= w.k
    ensures IsAmax(w, r0, r1, c0, c1, a)
  {
    a := 0.0;
    for r := r0 to r1
      invariant IsAmax(w, r0, r, c0, c1, a)
    {
      ghost var before := a;
      for c := c0 to c1
        invariant a >= before && IsAmax(w, r0, r, c0, c1, before)
        invariant forall c2 :: c0 <= c2 < c ==> Abs(w.at(r, c2)) <= a
        invariant a == before || exists c2 :: c0 <= c2 < c && Abs(w.at(r, c2)) == a
      {
        if Abs(w.at(r, c)) > a {
          a := Abs(w.at(r, c));
        }
      }
    }
  }

  function Lo(b: nat): nat { b * BLOCK }

  function Hi(b: nat, n: nat): nat { Min((b + 1) * BLOCK, n) }

  /** `a` is the largest magnitude of block (bi, bj), cut off at the ragged edges. */
  ghost predicate BlockHasAmax(w: Weight, bi: nat, bj: nat, a: real) {
    IsAmax(w, Lo(bi), Hi(bi, w.n), Lo(bj), Hi(bj, w.k), a)
  }

  /** The scale that puts magnitude `a` on 448, and 1 for a block of zeros. */
  function ScaleFor(a: real): (s: real)
    requires a >= 0.0
    ensures s > 0.0
  {
    if a > 0.0 then a / E4M3_MAX else 1.0
  }

  ghost predicate IsScale(w: Weight, bi: nat, bj: nat, s: real) {
    exists a :: BlockHasAmax(w, bi, bj, a) && s == ScaleFor(a)
  }

  function Over(x: real, s: real): real { if s == 0.0 then 0.0 else x / s }

  /** One block: its scale, and its elements divided by it. */
  method ScaleBlock(w: Weight, q: array2<real>, bi: nat, bj: nat) returns (s: real)
    requires q.Length0 == w.n && q.Length1 == w.k && bi < Blocks(w.n) && bj < Blocks(w.k)
    modifies q
    ensures IsScale(w, bi, bj, s)
    ensures forall r, c :: 0 <= r < w.n && 0 <= c < w.k ==>
              q[r, c] == if r / BLOCK == bi && c / BLOCK == bj then Over(w.at(r, c), s) else old(q[r, c])
  {
    var r0, r1, c0, c1 := Lo(bi), Hi(bi, w.n), Lo(bj), Hi(bj, w.k);
    var amax := RectAmax(w, r0, r1, c0, c1);
    s := ScaleFor(amax);
    assert BlockHasAmax(w, bi, bj, amax);
    forall r, c | r0 <= r < r1 && c0 <= c < c1 {
      q[r, c] := Over(w.at(r, c), s);
    }
  }

  /** One row of blocks, left to right. */
  method ScaleBand(w: Weight, q: array2<real>, bi: nat) returns (s: seq<real>)
    requires q.Length0 == w.n && q.Length1 == w.k && bi < Blocks(w.n)
    modifies q
    ensures |s| == Blocks(w.k) && forall j :: 0 <= j < |s| ==> IsScale(w, bi, j, s[j])
    ensures forall r, c :: 0 <= r < w.n && 0 <= c < w.k ==>
              q[r, c] == if r / BLOCK == bi then Over(w.at(r, c), s[c / BLOCK]) else old(q[r, c])
  {
    s := [];
    for bj := 0 to Blocks(w.k)
      invariant |s| == bj && forall j :: 0 <= j < bj ==> IsScale(w, bi, j, s[j])
      invariant forall r, c :: 0 <= r < w.n && 0 <= c < w.k ==>
                  q[r, c] == if r / BLOCK == bi && c / BLOCK < bj then Over(w.at(r, c), s[c / BLOCK]) else old(q[r, c])
    {
      var next := ScaleBlock(w, q, bi, bj);
      s := s + [next];
    }
  }

  /** Every element is divided once, by the scale of the block it lies in, and then cast. */
  method ToBlockFp8(w: Weight, cast: real -> real) returns (fp8: array2<real>, scale: array2<real>)
    ensures fresh(scale) && scale.Length0 == Blocks(w.n) && scale.Length1 == Blocks(w.k)
    ensures forall i, j :: 0 <= i < scale.Length0 && 0 <= j < scale.Length1 ==> IsScale(w, i, j, scale[i, j])
    ensures fresh(fp8) && fp8.Length0 == w.n && fp8.Length1 == w.k
    ensures forall r, c :: 0 <= r < w.n && 0 <= c < w.k ==>
              fp8[r, c] == cast(Over(w.at(r, c), scale[r / BLOCK, c / BLOCK]))
  {
    scale := new real[Blocks(w.n), Blocks(w.k)]((i, j) => 1.0);
    var q := new real[w.n, w.k]((i, j) => 0.0);
    for bi := 0 to scale.Length0
      invariant forall i, j :: 0 <= i < bi && 0 <= j < scale.Length1 ==> IsScale(w, i, j, scale[i, j])
      invariant forall r, c :: 0 <= r < w.n && 0 <= c < w.k && r / BLOCK < bi ==>
                  q[r, c] == Over(w.at(r, c), scale[r / BLOCK, c / BLOCK])
    {
      var s := ScaleBand(w, q, bi);
      forall j | 0 <= j < |s| {
        scale[bi, j] := s[j];
      }
    }
    fp8 := new real[w.n, w.k]((i, j) => 0.0);
    forall r, c | 0 <= r < w.n && 0 <= c < w.k {
      fp8[r, c] := cast(q[r, c]);
    }
  }

  /** A block's scale keeps each of its quotients within the e4m3 range, and multiplying back is exact. */
  lemma QuotientInRange(w: Weight, r: nat, c: nat, s: real)
    requires r < w.n && c < w.k && IsScale(w, r / BLOCK, c / BLOCK, s)
    ensures s > 0.0 && Abs(Over(w.at(r, c), s)) <= E4M3_MAX && Over(w.at(r, c), s) * s == w.at(r, c)
  {
    var a :| BlockHasAmax(w, r / BLOCK, c / BLOCK, a) && s == ScaleFor(a);
    assert Abs(w.at(r, c)) <= a;
    OverInRange(w.at(r, c), a);
  }

  /** A block of zeros has the scale 1, and no other block's scale leaves its largest element at zero. */
  lemma ZeroBlockScale(w: Weight, bi: nat, bj: nat, s: real)
    requires IsScale(w, bi, bj, s)
    requires forall r, c :: Lo(bi) <= r < Hi(bi, w.n) && Lo(bj) <= c < Hi(bj, w.k) ==> w.at(r, c) == 0.0
    ensures s == 1.0
  {
  }

  lemma OverInRange(x: real, a: real)
    requires Abs(x) <= a
    ensures Abs(Over(x, ScaleFor(a))) <= E4M3_MAX && Over(x, ScaleFor(a)) * ScaleFor(a) == x
    ensures Abs(x) == a > 0.0 ==> Abs(Over(x, ScaleFor(a))) == E4M3_MAX
  {
    var s := ScaleFor(a);
    if a > 0.0 {
      AbsQuotient(x, s);
      QuotientBound(Abs(x), s, E4M3_MAX);
      if Abs(x) == a {
        ExactQuotient(a, s, E4M3_MAX);
      }
    }
  }

  lemma AbsQuotient(x: real, s: real)
    requires s > 0.0
    ensures Abs(x / s) == Abs(x) / s
  {
    var q := x / s;
    assert q * s == x;
    ExactQuotient(-x, s, -q);
    if q < 0.0 {
      assert (-q) * s > 0.0;
    } else {
      assert q * s >= 0.0;
    }
  }

  lemma ExactQuotient(x: real, s: real, m: real)
    requires s > 0.0 && x == s * m
    ensures x / s == m
  {
    var q := x / s;
    assert q * s == x;
    NoZeroDivisor(q - m, s);
  }

  lemma NoZeroDivisor(d: real, s: real)
    requires s > 0.0 && d * s == 0.0
    ensures d == 0.0
  {
  }

  /** A block with any nonzero element puts one of them exactly on the largest finite e4m3 value. */
  lemma RangeIsUsed(w: Weight, r: nat, c: nat, s: real)
    requires r < w.n && c < w.k && IsScale(w, r / BLOCK, c / BLOCK, s) && w.at(r, c) != 0.0
    ensures exists r2, c2 :: 0 <= r2 < w.n && 0 <= c2 < w.k &&
              r2 / BLOCK == r / BLOCK && c2 / BLOCK == c / BLOCK && Abs(Over(w.at(r2, c2), s)) == E4M3_MAX
  {
    var bi, bj := r / BLOCK, c / BLOCK;
    var a :| BlockHasAmax(w, bi, bj, a) && s == ScaleFor(a);
    assert Abs(w.at(r, c)) > 0.0;
    var r2, c2 :| Lo(bi) <= r2 < Hi(bi, w.n) && Lo(bj) <= c2 < Hi(bj, w.k) && Abs(w.at(r2, c2)) == a;
    assert r2 / BLOCK == bi && c2 / BLOCK == bj;
    OverInRange(w.at(r2, c2), a);
  }

  lemma QuotientBound(x: real, s: real, m: real)
    requires s > 0.0 && x <= s * m
    ensures x / s <= m
  {
    var q := x / s;
    assert q * s == x;
    if q > m {
      assert (q - m) * s > 0.0;
    }
  }

  /** The kernel's flat index into the row-major scale grid selects that element's block. */
  lemma FlatScaleIndex(n: nat, k: nat, r: nat, c: nat)
    requires r < n && c < k
    ensures var x := r / BLOCK * Blocks(k) + c / BLOCK;
            && x < Blocks(n) * Blocks(k) && x / Blocks(k) == r / BLOCK && x % Blocks(k) == c / BLOCK
  {
    LinearMaps.MulMonotone(r / BLOCK + 1, Blocks(n), Blocks(k));
    assert (r / BLOCK + 1) * Blocks(k) == r / BLOCK * Blocks(k) + Blocks(k);
    LinearMaps.FlatIndex(r / BLOCK, Blocks(k), c / BLOCK);
  }

  // --- MXFP4 --------------------------------------------------------------

  const E2M1: seq<real> := [0.0, 0.5, 1.0, 1.5, 2.0, 3.0, 4.0, 6.0]
  const E2M1_MAX := 6.0
  const TINY := 0.000000000000000000000000000001

  function Pow2(e: int): (p: real)
    ensures p > 0.0
    decreases if e < 0 then -e else e
  {
    if e == 0 then 1.0 else if e > 0 then 2.0 * Pow2(e - 1) else Pow2(e + 1) / 2.0
  }

  /** `e` is the ceiling of the base-2 logarithm of `x`. */
  predicate IsCeilLog2(x: real, e: int) {
    Pow2(e - 1) < x <= Pow2(e)
  }

  method CeilLog2(x: real) returns (e: int)
    requires x > 0.0
    ensures IsCeilLog2(x, e)
  {
    e := 0;
    while Pow2(e) < x
      invariant e >= 0 && (e == 0 || Pow2(e - 1) < x)
      invariant Pow2(e) >= 1.0
      decreases x - Pow2(e)
    {
      e := e + 1;
    }
    while Pow2(e - 1) >= x
      invariant x <= Pow2(e) && (e <= 0 || Pow2(e - 1) < x)
      decreases 1.0 / x - 1.0 / Pow2(e)
    {
      Pow2Monotone(e, 0);
      ReciprocalOrder(Pow2(e), 1.0);
      ReciprocalOfHalf(Pow2(e));
      ReciprocalOrder(x, Pow2(e - 1));
      e := e - 1;
    }
  }

  lemma {:induction false} Pow2Monotone(e: int, f: int)
    requires e <= f
    ensures Pow2(e) <= Pow2(f)
    decreases f - e
  {
    if e < f {
      Pow2Monotone(e, f - 1);
      assert Pow2(f) == 2.0 * Pow2(f - 1);
    }
  }

  lemma ReciprocalOrder(x: real, y: real)
    requires 0.0 < x <= y
    ensures 1.0 / x >= 1.0 / y > 0.0
  {
    var u, v := 1.0 / x, 1.0 / y;
    assert u * x == 1.0 && v * y == 1.0;
    assert v > 0.0;
    assert v * x <= v * y;
    PositiveFactor(u - v, x);
  }

  lemma PositiveFactor(d: real, s: real)
    requires s > 0.0 && d * s >= 0.0
    ensures d >= 0.0
  {
  }

  lemma ReciprocalOfHalf(p: real)
    requires p > 0.0
    ensures 1.0 / (p / 2.0) == 2.0 * (1.0 / p)
  {
    var u := 1.0 / p;
    assert u * p == 1.0;
    ExactQuotient(1.0, p / 2.0, 2.0 * u);
  }

  lemma CeilLog2Unique(x: real, e: int, f: int)
    requires IsCeilLog2(x, e) && IsCeilLog2(x, f)
    ensures e == f
  {
    if e < f {
      Pow2Monotone(e, f - 1);
    } else if f < e {
      Pow2Monotone(f, e - 1);
    }
  }

  /** Index of the grid value nearest to `a` among the first `n`, the first of equally near ones. */
  function NearestIndex(a: real, n: nat): (idx: nat)
    requires 0 < n <= |E2M1|
    ensures idx < n
    ensures forall j :: 0 <= j < n ==> Abs(a - E2M1[idx]) <= Abs(a - E2M1[j])
    ensures forall j :: 0 <= j < idx ==> Abs(a - E2M1[idx]) < Abs(a - E2M1[j])
  {
    if n == 1 then 0
    else
      var before := NearestIndex(a, n - 1);
      if Abs(a - E2M1[n - 1]) < Abs(a - E2M1[before]) then n - 1 else before
  }

  function NearestValue(a: real): real { E2M1[NearestIndex(a, |E2M1|)] }

  function Sign(x: real): real { if x < 0.0 then -1.0 else if x > 0.0 then 1.0 else 0.0 }

  /** The exponent of a group's scale: the ceiling logarithm of amax/6, not below 1e-30; zero groups keep 0. */
  ghost predicate GroupExponent(amax: real, e: int) {
    if amax > 0.0 then IsCeilLog2(if amax / E2M1_MAX < TINY then TINY else amax / E2M1_MAX, e) else e == 0
  }

  function SignedProduct(q: real, g: real, s: real): real { Sign(q) * g * s }

  /** `x` re-encoded under scale `s`: the grid value nearest to the quotient, its sign and the scale put back. */
  function Encoded(x: real, s: real): real
    requires s > 0.0
  {
    SignedProduct(x / s, NearestValue(Abs(x / s)), s)
  }

  /** The value of the e2m1 code `k`: two exponent bits, one mantissa bit, subnormal below 1. */
  function GridValue(k: nat): real
    requires k < 8
  {
    var power := if k < 4 then 1.0 else if k < 6 then 2.0 else 4.0;
    if k < 2 then k as real / 2.0 else power * (1.0 + (k % 2) as real / 2.0)
  }

  /** No code is nearer to `q` than code `k`, and no earlier one as near. */
  ghost predicate FirstNearest(q: real, k: nat) {
    && k < 8
    && (forall j: nat :: j < 8 ==> Abs(q - GridValue(k)) <= Abs(q - GridValue(j)))
    && (forall j: nat :: j < k ==> Abs(q - GridValue(k)) < Abs(q - GridValue(j)))
  }

  /** `y` is code `k` under scale `s` with the sign of `x`, the first of the codes nearest to |x|/s. */
  ghost predicate RoundsTo(x: real, s: real, k: nat, y: real)
    requires s > 0.0
  {
    var q := Abs(x) / s;
    && FirstNearest(q, k)
    && y == if x < 0.0 then -(GridValue(k) * s) else if x > 0.0 then GridValue(k) * s else 0.0
  }

  ghost predicate RoundsToGrid(x: real, s: real, y: real)
    requires s > 0.0
  {
    exists k: nat :: RoundsTo(x, s, k, y)
  }

  lemma GridIsE2m1(k: nat)
    requires k < 8
    ensures E2M1[k] == GridValue(k)
  {
    assert k == 0 || k == 1 || k == 2 || k == 3 || k == 4 || k == 5 || k == 6 || k == 7;
  }

  /** Every element is re-encoded as the first of the nearest codes. */
  lemma EncodedRounds(x: real, s: real)
    requires s > 0.0
    ensures RoundsToGrid(x, s, Encoded(x, s))
  {
    AbsQuotient(x, s);
    var k := IndexIsFirst(Abs(x / s));
    QuotientSign(x, s);
    SignBack(x, GridValue(k), s);
    assert RoundsTo(x, s, k, Encoded(x, s));
  }

  lemma IndexIsFirst(q: real) returns (k: nat)
    ensures FirstNearest(q, k) && NearestValue(q) == GridValue(k)
  {
    k := NearestIndex(q, |E2M1|);
    forall j: nat | j < 8
      ensures E2M1[j] == GridValue(j)
    {
      GridIsE2m1(j);
    }
  }

  lemma SignBack(x: real, g: real, s: real)
    ensures Sign(x) * g * s == if x < 0.0 then -(g * s) else if x > 0.0 then g * s else 0.0
  {
  }

  lemma QuotientSign(x: real, s: real)
    requires s > 0.0
    ensures Sign(x / s) == Sign(x)
  {
    var q := x / s;
    assert q * s == x;
    if q > 0.0 {
      assert q * s > 0.0;
    } else if q < 0.0 {
      assert (-q) * s > 0.0;
    }
  }

  function Groups(k: nat): (n: nat)
    ensures k <= 32 * n < k + 32
  {
    (k + GROUP - 1) / GROUP
  }

  /** `amax` is the largest magnitude of row `r` in group `g`. */
  ghost predicate GroupHasAmax(w: Weight, r: nat, g: nat, amax: real) {
    IsAmax(w, r, r + 1, g * GROUP, Min((g + 1) * GROUP, w.k), amax)
  }

  /** `s` is the scale of group `g` of row `r`. */
  ghost predicate IsGroupScale(w: Weight, r: nat, g: nat, s: real) {
    exists amax, e :: GroupHasAmax(w, r, g, amax) && GroupExponent(amax, e) && s == Pow2(e)
  }

  method GroupScale(w: Weight, r: nat, g: nat) returns (s: real)
    requires r < w.n && g < Groups(w.k)
    ensures s > 0.0 && IsGroupScale(w, r, g, s)
  {
    var amax := RectAmax(w, r, r + 1, g * GROUP, Min((g + 1) * GROUP, w.k));
    assert GroupHasAmax(w, r, g, amax);
    var e := 0;
    if amax > 0.0 {
      e := CeilLog2(if amax / E2M1_MAX < TINY then TINY else amax / E2M1_MAX);
    }
    assert GroupExponent(amax, e);
    s := Pow2(e);
  }

  /** The scales of group `g`, row by row. */
  method GroupScales(w: Weight, g: nat) returns (s: seq<real>)
    requires g < Groups(w.k)
    ensures |s| == w.n && forall r :: 0 <= r < w.n ==> s[r] > 0.0 && IsGroupScale(w, r, g, s[r])
  {
    s := [];
    for r := 0 to w.n
      invariant |s| == r && forall i :: 0 <= i < r ==> s[i] > 0.0 && IsGroupScale(w, i, g, s[i])
    {
      var next := GroupScale(w, r, g);
      s := s + [next];
    }
  }

  /** One group of columns. */
  method EncodeGroup(w: Weight, out: array2<real>, g: nat, s: seq<real>)
    requires out.Length0 == w.n && out.Length1 == w.k && g < Groups(w.k)
    requires |s| == w.n && forall r :: 0 <= r < w.n ==> s[r] > 0.0
    modifies out
    ensures forall r, c :: 0 <= r < w.n && 0 <= c < w.k ==>
              out[r, c] == if c / GROUP == g then Encoded(w.at(r, c), s[r]) else old(out[r, c])
  {
    var c0, c1 := g * GROUP, Min((g + 1) * GROUP, w.k);
    forall r, c | 0 <= r < w.n && c0 <= c < c1 {
      out[r, c] := Encoded(w.at(r, c), s[r]);
    }
  }

  /** Every element is re-encoded under the scale of its row's group of 32 columns. */
  method ToMxfp4(w: Weight) returns (out: array2<real>, scale: seq<seq<real>>)
    ensures |scale| == Groups(w.k)
    ensures forall g :: 0 <= g < |scale| ==> |scale[g]| == w.n
    ensures forall g, r :: 0 <= g < |scale| && 0 <= r < w.n ==>
              scale[g][r] > 0.0 && IsGroupScale(w, r, g, scale[g][r])
    ensures fresh(out) && out.Length0 == w.n && out.Length1 == w.k
    ensures forall r, c :: 0 <= r < w.n && 0 <= c < w.k ==>
              && out[r, c] == Encoded(w.at(r, c), scale[c / GROUP][r])
              && RoundsToGrid(w.at(r, c), scale[c / GROUP][r], out[r, c])
  {
    out := new real[w.n, w.k]((i, j) => 0.0);
    scale := [];
    for g := 0 to Groups(w.k)
      invariant |scale| == g && forall h :: 0 <= h < g ==> |scale[h]| == w.n
      invariant forall h, r :: 0 <= h < g && 0 <= r < w.n ==>
                  scale[h][r] > 0.0 && IsGroupScale(w, r, h, scale[h][r])
      invariant forall r, c :: 0 <= r < w.n && 0 <= c < w.k && c / GROUP < g ==>
                  out[r, c] == Encoded(w.at(r, c), scale[c / GROUP][r])
    {
      var s := GroupScales(w, g);
      EncodeGroup(w, out, g, s);
      scale := scale + [s];
    }
    forall r, c | 0 <= r < w.n && 0 <= c < w.k
      ensures RoundsToGrid(w.at(r, c), scale[c / GROUP][r], out[r, c])
    {
      EncodedRounds(w.at(r, c), scale[c / GROUP][r]);
    }
  }

  /** The grid is dense enough: within its range the nearest value is at most 1 away. */
  lemma GridError(a: real)
    requires 0.0 <= a <= E2M1_MAX
    ensures Abs(a - NearestValue(a)) <= 1.0
  {
    var i := NearestIndex(a, |E2M1|);
    assert E2M1[0] == 0.0 && E2M1[2] == 1.0 && E2M1[4] == 2.0 && E2M1[5] == 3.0 && E2M1[6] == 4.0 && E2M1[7] == 6.0;
    var j := if a <= 1.0 then 0 else if a <= 2.0 then 2 else if a <= 3.0 then 4 else if a <= 4.0 then 5 else
      if a <= 5.0 then 6 else 7;
    assert Abs(a - E2M1[i]) <= Abs(a - E2M1[j]);
  }

  lemma ScaleCovers(amax: real, e: int)
    requires GroupExponent(amax, e)
    ensures amax <= 0.0 || amax <= Pow2(e) * E2M1_MAX
  {
  }

  /** The scale is large enough: no quotient exceeds the grid. */
  lemma NeverSaturates(amax: real, e: int, x: real)
    requires Abs(x) <= amax && GroupExponent(amax, e)
    ensures Abs(x / Pow2(e)) <= E2M1_MAX
  {
    ScaleCovers(amax, e);
    AbsQuotient(x, Pow2(e));
    QuotientBound(Abs(x), Pow2(e), E2M1_MAX);
  }

  /** `e` is the smallest exponent whose scale covers `amax`. */
  ghost predicate IsSmallest(amax: real, e: int) {
    amax <= Pow2(e) * E2M1_MAX && forall f :: amax <= Pow2(f) * E2M1_MAX ==> e <= f
  }

  lemma SmallestIsCeilLog2(amax: real, e: int)
    ensures IsSmallest(amax, e) ==> IsCeilLog2(amax / E2M1_MAX, e)
    ensures IsCeilLog2(amax / E2M1_MAX, e) ==> IsSmallest(amax, e)
  {
    if IsCeilLog2(amax / E2M1_MAX, e) {
      forall f | amax <= Pow2(f) * E2M1_MAX
        ensures e <= f
      {
        if f < e {
          Pow2Monotone(f, e - 1);
        }
      }
    }
    if IsSmallest(amax, e) {
      assert !(amax <= Pow2(e - 1) * E2M1_MAX);
    }
  }

  /** The clamp rounds up to 2^-99. */
  lemma TinyExponent()
    ensures IsCeilLog2(TINY, -99)
  {
    TenLess(0);
    TenLess(-10);
    TenLess(-20);
    TenLess(-30);
    TenLess(-40);
    TenLess(-50);
    TenLess(-60);
    TenLess(-70);
    TenLess(-80);
    TenLess(-90);
    assert Pow2(-99) == 2.0 * Pow2(-100);
  }

  lemma TenLess(e: int)
    requires e <= 0
    ensures Pow2(e - 10) == Pow2(e) / 1024.0
  {
    assert Pow2(e - 5) == Pow2(e - 4) / 2.0 == Pow2(e - 3) / 4.0 == Pow2(e - 2) / 8.0 == Pow2(e - 1) / 16.0;
    assert Pow2(e - 10) == Pow2(e - 9) / 2.0 == Pow2(e - 8) / 4.0 == Pow2(e - 7) / 8.0 == Pow2(e - 6) / 16.0;
  }

  /** The scale is the smallest that covers its group exactly when a sixth of the maximum exceeds 2^-100. */
  lemma SmallestScaleIff(amax: real, e: int)
    requires amax > 0.0 && GroupExponent(amax, e)
    ensures IsSmallest(amax, e) <==> amax / E2M1_MAX > Pow2(-100)
  {
    TinyExponent();
    SmallestIsCeilLog2(amax, e);
    if amax / E2M1_MAX < TINY {
      CeilLog2Unique(TINY, e, -99);
    }
  }

  /** A group whose maximum is 6 * 2^-100 gets the scale 2^-99, twice as large as needed. */
  lemma ClampedScaleNotSmallest()
    ensures var amax := E2M1_MAX * Pow2(-100);
            GroupExponent(amax, -99) && !IsSmallest(amax, -99) && IsSmallest(amax, -100)
  {
    var amax := E2M1_MAX * Pow2(-100);
    TinyExponent();
    assert amax / E2M1_MAX == Pow2(-100);
    SmallestScaleIff(amax, -99);
    assert Pow2(-100) == 2.0 * Pow2(-101);
    SmallestIsCeilLog2(amax, -100);
  }

  lemma ScaledError(x: real, s: real)
    requires s > 0.0 && Abs(x / s) <= E2M1_MAX
    ensures Abs(Encoded(x, s) - x) <= s
    ensures x == 0.0 ==> Encoded(x, s) == 0.0
  {
    var q := x / s;
    assert q * s == x;
    GridError(Abs(q));
    ProductError(q, NearestValue(Abs(q)), s);
  }

  lemma ProductError(q: real, g: real, s: real)
    requires s > 0.0 && Abs(Abs(q) - g) <= 1.0
    ensures Abs(SignedProduct(q, g, s) - q * s) <= s
    ensures q == 0.0 ==> SignedProduct(q, g, s) == 0.0
  {
    if q == 0.0 {
      assert SignedProduct(q, g, s) == 0.0;
    } else {
      var d := Sign(q) * g - q;
      assert -1.0 <= d <= 1.0;
      ScaledUnit(d, s);
      assert SignedProduct(q, g, s) - q * s == d * s;
    }
  }

  lemma ScaledUnit(d: real, s: real)
    requires s > 0.0 && -1.0 <= d <= 1.0
    ensures -s <= d * s <= s
  {
    var u, v := 1.0 - d, 1.0 + d;
    assert u * s >= 0.0;
    assert v * s >= 0.0;
  }

  /** An element is off by at most its group's scale, which is below a third of the group's maximum. */
  lemma EncodingError(amax: real, e: int, x: real)
    requires Abs(x) <= amax && GroupExponent(amax, e)
    ensures amax == 0.0 ==> Encoded(x, Pow2(e)) == x
    ensures Abs(Encoded(x, Pow2(e)) - x) <= Pow2(e)
    ensures amax / E2M1_MAX >= TINY ==> Pow2(e) < amax / 3.0
  {
    NeverSaturates(amax, e, x);
    ScaledError(x, Pow2(e));
    if amax / E2M1_MAX >= TINY {
      assert Pow2(e) == 2.0 * Pow2(e - 1);
    }
  }

  /** Every element written is off by at most its group's scale; unless the group is all but zero that is
      less than a third of its maximum, and a group of zeros is kept. */
  lemma Mxfp4Error(w: Weight, r: nat, c: nat, s: real, amax: real)
    requires r < w.n && c < w.k && s > 0.0 && IsGroupScale(w, r, c / GROUP, s) && GroupHasAmax(w, r, c / GROUP, amax)
    ensures Abs(Encoded(w.at(r, c), s) - w.at(r, c)) <= s
    ensures amax == 0.0 ==> Encoded(w.at(r, c), s) == w.at(r, c)
    ensures amax / E2M1_MAX >= TINY ==> s < amax / 3.0
  {
    var a, e :| GroupHasAmax(w, r, c / GROUP, a) && GroupExponent(a, e) && s == Pow2(e);
    AmaxUnique(w, r, r + 1, c / GROUP * GROUP, Min((c / GROUP + 1) * GROUP, w.k), a, amax);
    assert Abs(w.at(r, c)) <= a;
    EncodingError(a, e, w.at(r, c));
  }
}
