/**
  Block-scaled FP8 weights (`glm52_prep.py`, `glm52_prep_fp8_linear.py`, `glm53_prep_blk.py`): one scale per 128 x 128
  block, ragged at the edges, and two byte-level republications that must not change what the weight dequantises to.
 */
module BlockScale {
  import opened Common
  import opened LinearMaps

  const BLOCK := 128
  const E4M3_MAX := 448.0

  function Blocks(n: nat): nat { (n + BLOCK - 1) / BLOCK }

  /** The scale of row `r` and column `d`: block row, then block column. */
  function ScaleOf(r: nat, d: nat, k: nat): nat {
    r / BLOCK * Blocks(k) + d / BLOCK
  }

  /** The scale a row-major [*, k] weight uses for its element `x`. */
  function ScaleIndex(k: nat, x: nat): nat
    requires k > 0
  {
    ScaleOf(x / k, x % k, k)
  }

  ghost predicate Shaped(w: seq<real>, s: seq<real>, n: nat, k: nat) {
    k > 0 && |w| == n * k && |s| == Blocks(n) * Blocks(k)
  }

  lemma RowOf(n: nat, k: nat, x: nat)
    requires k > 0 && x < n * k
    ensures x / k < n
  {
    assert x == x / k * k + x % k;
    if x / k >= n {
      MulMonotone(n, x / k, k);
    }
  }

  lemma InRow(row: nat, n: nat, k: nat, d: nat)
    requires row < n && d < k
    ensures row * k + d < n * k
  {
    MulMonotone(row + 1, n, k);
    assert (row + 1) * k == row * k + k;
  }

  lemma BlockOf(r: nat, n: nat)
    requires r < n
    ensures r / BLOCK < Blocks(n)
  {
  }

  lemma ScaleOfInGrid(r: nat, d: nat, n: nat, k: nat)
    requires r < n && d < k
    ensures ScaleOf(r, d, k) < Blocks(n) * Blocks(k)
  {
    BlockOf(r, n);
    BlockOf(d, k);
    InRow(r / BLOCK, Blocks(n), Blocks(k), d / BLOCK);
  }

  lemma ScaleInGrid(n: nat, k: nat, x: nat)
    requires k > 0 && x < n * k
    ensures ScaleIndex(k, x) < Blocks(n) * Blocks(k)
  {
    RowOf(n, k, x);
    ScaleOfInGrid(x / k, x % k, n, k);
  }

  /** Every element times the scale `index` picks for it. */
  function Scaled(w: seq<real>, s: seq<real>, index: nat -> nat): seq<real>
    requires forall x: nat :: x < |w| ==> index(x) < |s|
  {
    seq(|w|, x requires 0 <= x < |w| => w[x] * s[index(x)])
  }

  function ScaleMap(k: nat): nat -> nat
    requires k > 0
  {
    x => ScaleIndex(k, x)
  }

  lemma MapInGrid(w: seq<real>, s: seq<real>, n: nat, k: nat)
    requires Shaped(w, s, n, k)
    ensures forall x: nat :: x < |w| ==> ScaleMap(k)(x) < |s|
  {
    forall x: nat | x < |w|
      ensures ScaleMap(k)(x) < |s|
    {
      ScaleInGrid(n, k, x);
    }
  }

  /** `dequant_blockfp8` on decoded elements. */
  function Dequant(w: seq<real>, s: seq<real>, n: nat, k: nat): (r: seq<real>)
    requires Shaped(w, s, n, k)
    ensures |r| == |w|
  {
    MapInGrid(w, s, n, k);
    Scaled(w, s, ScaleMap(k))
  }

  lemma ScaledAt(w: seq<real>, s: seq<real>, index: nat -> nat, x: nat, j: nat)
    requires forall x: nat :: x < |w| ==> index(x) < |s|
    requires x < |w| && index(x) == j
    ensures j < |s| && Scaled(w, s, index)[x] == w[x] * s[j]
  {
  }

  /** Element `x` = (row, d) is scaled by `j` = block (row/128, d/128). */
  lemma DequantAt(w: seq<real>, s: seq<real>, n: nat, k: nat, row: nat, d: nat, x: nat, j: nat)
    requires Shaped(w, s, n, k) && row < n && d < k
    requires x == row * k + d && j == row / BLOCK * Blocks(k) + d / BLOCK
    ensures x < |w| && j < |s| && Dequant(w, s, n, k)[x] == w[x] * s[j]
  {
    InRow(row, n, k, d);
    FlatIndex(row, k, d);
    MapInGrid(w, s, n, k);
    ScaledAt(w, s, ScaleMap(k), x, j);
  }

  // --- concatenation and prefix -------------------------------------------

  lemma AlignedRows(q: nat, m: nat)
    requires q % BLOCK == 0
    ensures Blocks(q + m) == Blocks(q) + Blocks(m) && Blocks(q) * BLOCK == q
  {
  }

  lemma ShiftedRow(q: nat, r: nat, d: nat, k: nat)
    requires q % BLOCK == 0
    ensures ScaleOf(q + r, d, k) == Blocks(q) * Blocks(k) + ScaleOf(r, d, k)
  {
    assert (q + r) / BLOCK == Blocks(q) + r / BLOCK;
    Distribute(Blocks(q), r / BLOCK, Blocks(k));
  }

  lemma Distribute(a: nat, b: nat, c: nat)
    ensures (a + b) * c == a * c + b * c
  {
  }

  lemma ShiftedIndex(q: nat, k: nat, y: nat)
    requires k > 0
    ensures (q * k + y) / k == q + y / k && (q * k + y) % k == y % k
  {
    assert y == y / k * k + y % k;
    Distribute(q, y / k, k);
    FlatIndex(q + y / k, k, y % k);
  }

  /** Below an aligned boundary row, block rows count from that boundary. */
  lemma ShiftedScale(q: nat, k: nat, y: nat)
    requires q % BLOCK == 0 && k > 0
    ensures ScaleIndex(k, q * k + y) == Blocks(q) * Blocks(k) + ScaleIndex(k, y)
  {
    ShiftedIndex(q, k, y);
    ShiftedRow(q, y / k, y % k, k);
  }

  lemma ConcatShaped(w: seq<real>, s: seq<real>, q: nat, w2: seq<real>, s2: seq<real>, m: nat, k: nat)
    requires Shaped(w, s, q, k) && Shaped(w2, s2, m, k) && q % BLOCK == 0
    ensures Shaped(w + w2, s + s2, q + m, k)
  {
    AlignedRows(q, m);
    Distribute(q, m, k);
    Distribute(Blocks(q), Blocks(m), Blocks(k));
  }

  /** If past `w` the scales of `w2` are picked past `s`, scaling and stacking commute. */
  lemma ScaledConcat(w: seq<real>, s: seq<real>, w2: seq<real>, s2: seq<real>, index: nat -> nat)
    requires forall x: nat :: x < |w| ==> index(x) < |s|
    requires forall y: nat :: y < |w2| ==> index(y) < |s2| && index(|w| + y) == |s| + index(y)
    ensures forall x: nat :: x < |w + w2| ==> index(x) < |s + s2|
    ensures Scaled(w + w2, s + s2, index) == Scaled(w, s, index) + Scaled(w2, s2, index)
  {
    forall x: nat | x < |w + w2|
      ensures index(x) < |s + s2|
      ensures (s + s2)[index(x)] == if x < |w| then s[index(x)] else s2[index(x - |w|)]
    {
      if x >= |w| {
        var y := x - |w|;
        assert index(|w| + y) == |s| + index(y);
      }
    }
    var both, parts := Scaled(w + w2, s + s2, index), Scaled(w, s, index) + Scaled(w2, s2, index);
    forall x: nat | x < |both|
      ensures both[x] == parts[x]
    {
      assert both[x] == (w + w2)[x] * (s + s2)[index(x)];
    }
  }

  /** Stacking two weights and their grids dequantises to the two stacked, when the boundary is aligned. */
  lemma DequantConcat(w: seq<real>, s: seq<real>, q: nat, w2: seq<real>, s2: seq<real>, m: nat, k: nat)
    requires Shaped(w, s, q, k) && Shaped(w2, s2, m, k) && q % BLOCK == 0
    ensures Shaped(w + w2, s + s2, q + m, k)
    ensures Dequant(w + w2, s + s2, q + m, k) == Dequant(w, s, q, k) + Dequant(w2, s2, m, k)
  {
    ConcatShaped(w, s, q, w2, s2, m, k);
    MapInGrid(w, s, q, k);
    MapInGrid(w2, s2, m, k);
    forall y: nat | y < |w2|
      ensures ScaleMap(k)(|w| + y) == |s| + ScaleMap(k)(y)
    {
      ShiftedScale(q, k, y);
    }
    ScaledConcat(w, s, w2, s2, ScaleMap(k));
  }

  /** The two weights, as stacked, dequantise to the two stacked. */
  ghost predicate StacksExactly(w: seq<real>, s: seq<real>, q: nat, w2: seq<real>, s2: seq<real>, m: nat, k: nat)
    requires Shaped(w, s, q, k) && Shaped(w2, s2, m, k)
  {
    Shaped(w + w2, s + s2, q + m, k) &&
    Dequant(w + w2, s + s2, q + m, k) == Dequant(w, s, q, k) + Dequant(w2, s2, m, k)
  }

  lemma BoundaryScale(q: nat, k: nat)
    requires q % BLOCK != 0 && k > 0
    ensures ScaleIndex(k, q * k) < Blocks(q) * Blocks(k)
  {
    FlatIndex(q, k, 0);
    assert q / BLOCK < Blocks(q) && 0 < Blocks(k);
    InRow(q / BLOCK, Blocks(q), Blocks(k), 0);
  }

  lemma AllOf(n: nat, v: real) returns (s: seq<real>)
    ensures |s| == n && forall i :: 0 <= i < n ==> s[i] == v
  {
    s := seq(n, _ => v);
  }

  /** Off the boundary the second weight's first row borrows the last scale row of the first. */
  lemma MisalignedStack(q: nat, m: nat, k: nat) returns (w: seq<real>, s: seq<real>, w2: seq<real>, s2: seq<real>)
    requires q % BLOCK != 0 && m > 0 && k > 0
    ensures Shaped(w, s, q, k) && Shaped(w2, s2, m, k) && !StacksExactly(w, s, q, w2, s2, m, k)
  {
    w := AllOf(q * k, 1.0);
    w2 := AllOf(m * k, 1.0);
    s := AllOf(Blocks(q) * Blocks(k), 0.0);
    s2 := AllOf(Blocks(m) * Blocks(k), 1.0);
    MulMonotone(1, m, k);
    BoundaryScale(q, k);
    MapInGrid(w, s, q, k);
    MapInGrid(w2, s2, m, k);
    if Shaped(w + w2, s + s2, q + m, k) {
      MapInGrid(w + w2, s + s2, q + m, k);
      Borrowed(w, s, w2, s2, ScaleMap(k));
    }
  }

  /** If the first element of `w2` finds its scale within `s`, zeros there and ones elsewhere tell. */
  lemma Borrowed(w: seq<real>, s: seq<real>, w2: seq<real>, s2: seq<real>, index: nat -> nat)
    requires forall x: nat :: x < |w| ==> index(x) < |s|
    requires forall y: nat :: y < |w2| ==> index(y) < |s2|
    requires forall x: nat :: x < |w + w2| ==> index(x) < |s + s2|
    requires w2 != [] && index(|w|) < |s| && w2[0] == 1.0
    requires (forall i :: 0 <= i < |s| ==> s[i] == 0.0) && forall i :: 0 <= i < |s2| ==> s2[i] == 1.0
    ensures Scaled(w + w2, s + s2, index) != Scaled(w, s, index) + Scaled(w2, s2, index)
  {
    var fused, parts := Scaled(w + w2, s + s2, index), Scaled(w, s, index) + Scaled(w2, s2, index);
    assert (s + s2)[index(|w|)] == 0.0;
    assert fused[|w|] == 0.0 && parts[|w|] == Scaled(w2, s2, index)[0] == 1.0;
  }

  /** Stacking is exact for every pair of weights exactly when the boundary row is a multiple of 128. */
  lemma StackingExactIff(q: nat, m: nat, k: nat)
    requires m > 0 && k > 0
    ensures (forall w, s, w2, s2 :: Shaped(w, s, q, k) && Shaped(w2, s2, m, k) ==>
               StacksExactly(w, s, q, w2, s2, m, k)) <==>
            q % BLOCK == 0
  {
    if q % BLOCK == 0 {
      forall w, s, w2, s2 | Shaped(w, s, q, k) && Shaped(w2, s2, m, k)
        ensures StacksExactly(w, s, q, w2, s2, m, k)
      {
        DequantConcat(w, s, q, w2, s2, m, k);
      }
    } else {
      var w, s, w2, s2 := MisalignedStack(q, m, k);
    }
  }

  /** Moving `off` elements on moves `base` elements on in what they are picked from; `y` picks among the first `w`. */
  ghost predicate Moves(source: nat -> nat, off: nat, base: nat, w: nat, y: nat) {
    source(y) < w && source(off + y) == base + source(y)
  }

  /** If the rows from `a` pick their scales from `c` on, scaling and cutting commute. */
  lemma ScaledSlice(w: seq<real>, s: seq<real>, index: nat -> nat, a: nat, b: nat, c: nat, d: nat)
    requires a + b <= |w| && c + d <= |s|
    requires forall x: nat :: x < |w| ==> index(x) < |s|
    requires forall y: nat :: y < b ==> Moves(index, a, c, d, y)
    requires forall y: nat :: y < b ==> index(y) < d
    ensures Scaled(w[a..a + b], s[c..c + d], index) == Scaled(w, s, index)[a..a + b]
  {
    forall y: nat | y < b
      ensures index(y) < d && s[c..c + d][index(y)] == s[index(a + y)]
    {
      assert Moves(index, a, c, d, y);
    }
    var part, whole := Scaled(w[a..a + b], s[c..c + d], index), Scaled(w, s, index)[a..a + b];
    forall y: nat | y < b
      ensures part[y] == whole[y]
    {
      assert part[y] == w[a..a + b][y] * s[c..c + d][index(y)];
    }
  }

  lemma Fits(a: nat, b: nat, n: nat, c: nat)
    requires a + b <= n
    ensures a * c + b * c <= n * c
  {
    MulMonotone(a + b, n, c);
    Distribute(a, b, c);
  }

  lemma BlocksFit(a: nat, b: nat, n: nat)
    requires a % BLOCK == 0 && a + b <= n
    ensures Blocks(a) + Blocks(b) <= Blocks(n)
  {
  }

  lemma CutLength(w: seq<real>, lo: nat, len: nat)
    requires lo + len <= |w|
    ensures |w[lo..lo + len]| == len
  {
  }

  lemma RowsCut(w: seq<real>, n: nat, k: nat, a: nat, b: nat, lo: nat, rows: nat)
    requires |w| == n * k && a + b <= n && lo == a * k && rows == b * k
    ensures lo + rows <= |w| && |w[lo..lo + rows]| == rows
  {
    Fits(a, b, n, k);
    CutLength(w, lo, rows);
  }

  lemma SliceShaped(w: seq<real>, s: seq<real>, n: nat, k: nat, a: nat, b: nat, lo: nat, rows: nat, c: nat, grid: nat)
    requires Shaped(w, s, n, k) && a % BLOCK == 0 && a + b <= n
    requires lo == a * k && rows == b * k && c == Blocks(a) * Blocks(k) && grid == Blocks(b) * Blocks(k)
    ensures lo + rows <= |w| && c + grid <= |s|
    ensures Shaped(w[lo..lo + rows], s[c..c + grid], b, k)
  {
    BlocksFit(a, b, n);
    RowsCut(w, n, k, a, b, lo, rows);
    RowsCut(s, Blocks(n), Blocks(k), Blocks(a), Blocks(b), c, grid);
  }

  lemma SliceScale(k: nat, a: nat, b: nat, lo: nat, rows: nat, c: nat, grid: nat, y: nat)
    requires a % BLOCK == 0 && k > 0 && y < rows && rows == b * k && lo == a * k
    requires c == Blocks(a) * Blocks(k) && grid == Blocks(b) * Blocks(k)
    ensures Moves(ScaleMap(k), lo, c, grid, y)
  {
    ShiftedScale(a, k, y);
    ScaleInGrid(b, k, y);
  }

  lemma SliceScales(k: nat, a: nat, b: nat, lo: nat, rows: nat, c: nat, grid: nat)
    requires a % BLOCK == 0 && k > 0 && lo == a * k && rows == b * k
    requires c == Blocks(a) * Blocks(k) && grid == Blocks(b) * Blocks(k)
    ensures forall y: nat :: y < rows ==> Moves(ScaleMap(k), lo, c, grid, y)
  {
    forall y: nat | y < rows
      ensures Moves(ScaleMap(k), lo, c, grid, y)
    {
      SliceScale(k, a, b, lo, rows, c, grid, y);
    }
  }

  /** Rows `a` to `a + b` cut from a weight at an aligned row, with the matching rows of its grid, dequantise
      to those rows of the whole; the last block may be ragged. The products are named by the caller. */
  lemma DequantSlice(w: seq<real>, s: seq<real>, n: nat, k: nat, a: nat, b: nat, lo: nat, rows: nat, c: nat, grid: nat)
    requires Shaped(w, s, n, k) && a % BLOCK == 0 && a + b <= n
    requires lo == a * k && rows == b * k && c == Blocks(a) * Blocks(k) && grid == Blocks(b) * Blocks(k)
    ensures lo + rows <= |w| && c + grid <= |s|
    ensures Shaped(w[lo..lo + rows], s[c..c + grid], b, k)
    ensures Dequant(w[lo..lo + rows], s[c..c + grid], b, k) == Dequant(w, s, n, k)[lo..lo + rows]
  {
    SliceShaped(w, s, n, k, a, b, lo, rows, c, grid);
    MapInGrid(w, s, n, k);
    SliceScales(k, a, b, lo, rows, c, grid);
    forall y: nat | y < rows
      ensures ScaleMap(k)(y) < grid
    {
      assert Moves(ScaleMap(k), lo, c, grid, y);
    }
    ScaledSlice(w, s, ScaleMap(k), lo, rows, c, grid);
  }

  /** The first `b` block rows of a weight and of its grid dequantise to the first rows of the whole. */
  lemma DequantPrefix(w: seq<real>, s: seq<real>, n: nat, k: nat, b: nat)
    requires Shaped(w, s, n, k) && b * BLOCK <= n
    ensures b * BLOCK * k <= n * k && b * Blocks(k) <= |s|
    ensures Shaped(w[..b * BLOCK * k], s[..b * Blocks(k)], b * BLOCK, k)
    ensures Dequant(w[..b * BLOCK * k], s[..b * Blocks(k)], b * BLOCK, k) == Dequant(w, s, n, k)[..b * BLOCK * k]
  {
    PrefixOfRows(w, s, n, k, b, b * BLOCK, Times(b * BLOCK, k), Times(b, Blocks(k)));
  }

  lemma PrefixOfRows(w: seq<real>, s: seq<real>, n: nat, k: nat, b: nat, rows: nat, len: nat, grid: nat)
    requires Shaped(w, s, n, k) && rows == b * BLOCK <= n && len == rows * k && grid == b * Blocks(k)
    ensures len <= n * k && grid <= |s|
    ensures Shaped(w[..len], s[..grid], rows, k)
    ensures Dequant(w[..len], s[..grid], rows, k) == Dequant(w, s, n, k)[..len]
  {
    assert Blocks(rows) == b && Blocks(0) == 0;
    DequantSlice(w, s, n, k, 0, rows, 0, len, 0, grid);
    assert w[0..0 + len] == w[..len] && s[0..0 + grid] == s[..grid];
  }
}
