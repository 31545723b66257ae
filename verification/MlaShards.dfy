/**
  `glm52_prep_fp8_linear.py`, `mla_tensors`: per-rank FP8 key and value weights derived from the block-scaled
  kv_b projection.  Each rank dequantises its own rows, regroups them by head, and scales by its own maximum.
 */
module MlaShards {
  import opened Common
  import opened LinearMaps
  import opened BlockScale

  /** heads, latent width, key width, value width, rope width, query-latent width, ranks */
  datatype Mla = Mla(nh: nat, dk: nat, qn: nat, vd: nat, dr: nat, ql: nat, tp: nat)

  /** Rounding to bf16 and to e4m3, left abstract. */
  datatype Rounding = Rounding(bf16: real -> real, e4m3: real -> real)

  function Width(m: Mla): nat { m.qn + m.vd }

  predicate Admissible(m: Mla) {
    && m.tp >= 1 && m.nh % m.tp == 0
    && m.nh >= 1 && m.ql >= 1 && m.dk >= 1 && m.qn >= 1 && m.dr >= 1 && m.vd >= 1
    && m.ql % BLOCK == 0 && m.dk % BLOCK == 0
    && m.nh / m.tp * (m.qn + m.dr) % BLOCK == 0 && m.nh / m.tp * Width(m) % BLOCK == 0
  }

  /** Admissible are positive dimensions whose heads split evenly, each rank taking whole blocks of query rows and of
      key-value rows, and whose two latents are whole blocks. */
  lemma AdmissibleIff(m: Mla, heads: nat)
    requires m.nh == m.tp * heads && m.tp > 0
    ensures Admissible(m) <==>
              && m.nh > 0 && m.ql > 0 && m.dk > 0 && m.qn > 0 && m.dr > 0 && m.vd > 0
              && WholeBlocks(m.ql) && WholeBlocks(m.dk)
              && WholeBlocks(heads * (m.qn + m.dr)) && WholeBlocks(heads * (m.qn + m.vd))
  {
    FlatIndex(heads, m.tp, 0);
    assert m.nh / m.tp == heads && m.nh % m.tp == 0;
  }

  predicate WholeBlocks(n: nat) { n / 128 * 128 == n }

  // --- regrouping by head -------------------------------------------------

  /** Element `i` of head `h`, for heads of `span` elements. */
  function InHead(h: nat, span: nat, i: nat): nat { h * span + i }

  /**
    A tensor [heads, a, b] gathered from rows of `span` elements a head: element (h, i, j) is the one at
    `inner(i, j)` within head `h`.
   */
  function Regroup(a: nat, b: nat, span: nat, inner: (nat, nat) -> nat, x: nat): nat
    requires a > 0 && b > 0
  {
    InHead(x / b / a, span, inner(x / b % a, x % b))
  }

  lemma RegroupAt(a: nat, b: nat, span: nat, inner: (nat, nat) -> nat, h: nat, i: nat, j: nat)
    requires i < a && j < b
    ensures Regroup(a, b, span, inner, (h * a + i) * b + j) == h * span + inner(i, j)
  {
    FlatIndex(h * a + i, b, j);
    FlatIndex(h, a, i);
  }

  /** Every index of a doubly flattened axis is one of its positions. */
  lemma Position(y: nat, a: nat, b: nat) returns (h: nat, i: nat, j: nat)
    requires a > 0 && b > 0
    ensures i < a && j < b && y == (h * a + i) * b + j
  {
    var z := y / b;
    h, i, j := z / a, z % a, y % b;
    assert y == z * b + j;
    assert z == h * a + i;
  }

  /** With `n` leading heads skipped, the source moves on by those heads' rows. */
  lemma RegroupShift(a: nat, b: nat, span: nat, inner: (nat, nat) -> nat, n: nat, y: nat, off: nat, base: nat)
    requires a > 0 && b > 0 && off == n * a * b && base == n * span
    ensures Regroup(a, b, span, inner, off + y) == base + Regroup(a, b, span, inner, y)
  {
    var h, i, j := Position(y, a, b);
    RegroupAt(a, b, span, inner, h, i, j);
    RegroupAt(a, b, span, inner, n + h, i, j);
    Distribute(n, h, span);
    Distribute(n, h, a);
    Distribute(n * a, h * a + i, b);
  }

  ghost predicate Inside(a: nat, b: nat, span: nat, inner: (nat, nat) -> nat) {
    a > 0 && b > 0 && forall i, j :: 0 <= i < a && 0 <= j < b ==> inner(i, j) < span
  }

  function RegroupMap(a: nat, b: nat, span: nat, inner: (nat, nat) -> nat): nat -> nat
    requires a > 0 && b > 0
  {
    x => Regroup(a, b, span, inner, x)
  }

  lemma RegroupInRange(a: nat, b: nat, span: nat, inner: (nat, nat) -> nat, heads: nat)
    requires Inside(a, b, span, inner)
    ensures forall x: nat :: x < heads * a * b ==> RegroupMap(a, b, span, inner)(x) < heads * span
  {
    forall x: nat | x < heads * a * b
      ensures RegroupMap(a, b, span, inner)(x) < heads * span
    {
      RowOf(heads * a, b, x);
      RowOf(heads, a, x / b);
      InRow(x / b / a, heads, span, inner(x / b % a, x % b));
    }
  }

  // --- one rank -----------------------------------------------------------

  /** Each of the `tp` ranks owns `h` heads, whose rows fill whole blocks. */
  ghost predicate Split(m: Mla, h: nat) {
    m.dk > 0 && m.qn > 0 && m.vd > 0 && m.nh == m.tp * h && h * Width(m) % BLOCK == 0
  }

  /** Rank `rank`'s `b` of the `ranks * b` rows start at a block boundary. */
  lemma RankAligned(ranks: nat, b: nat, rank: nat)
    requires b % BLOCK == 0 && rank < ranks
    ensures rank * b % BLOCK == 0 && rank * b + b <= ranks * b
  {
    assert rank * b == rank * (b / BLOCK) * BLOCK;
    ShareFits(ranks, rank, b);
  }

  /** The `n` elements of rank `rank` out of `ranks * n`. */
  lemma ShareFits(ranks: nat, rank: nat, n: nat)
    requires rank < ranks
    ensures rank * n + n <= ranks * n
  {
    MulMonotone(rank + 1, ranks, n);
    Distribute(rank, 1, n);
  }

  /** The part of `t` that rank `rank` holds when each rank holds `n` elements. */
  function Share(t: seq<real>, rank: nat, n: nat): (s: seq<real>)
    requires rank * n + n <= |t|
    ensures |s| == n
  {
    t[rank * n..rank * n + n]
  }

  lemma Assoc(a: nat, b: nat, c: nat)
    ensures a * b * c == a * (b * c)
  {
  }

  lemma RankSlice(kv: seq<real>, kvs: seq<real>, ranks: nat, b: nat, dk: nat, rank: nat, first: nat,
                  lo: nat, rows: nat, c: nat, grid: nat)
    requires b % BLOCK == 0 && rank < ranks && Shaped(kv, kvs, ranks * b, dk) && first == rank * b
    requires lo == first * dk && rows == b * dk && c == Blocks(first) * Blocks(dk) && grid == Blocks(b) * Blocks(dk)
    ensures lo + rows <= |kv| && c + grid <= |kvs| && rank * rows + rows <= |kv|
    ensures Shaped(kv[lo..lo + rows], kvs[c..c + grid], b, dk)
    ensures Dequant(kv[lo..lo + rows], kvs[c..c + grid], b, dk) == Share(Dequant(kv, kvs, ranks * b, dk), rank, rows)
  {
    RankAligned(ranks, b, rank);
    DequantSlice(kv, kvs, Times(ranks, b), dk, first, b, lo, rows, c, grid);
    Assoc(rank, b, dk);
  }

  /** What one rank dequantises, its own `b` rows with the matching rows of the grid, is its share of the
      whole weight dequantised. */
  method RankRows(kv: seq<real>, kvs: seq<real>, ranks: nat, b: nat, dk: nat, rank: nat) returns (own: seq<real>)
    requires b % BLOCK == 0 && rank < ranks && Shaped(kv, kvs, ranks * b, dk)
    ensures rank * Times(b, dk) + b * dk <= |kv|
    ensures own == Share(Dequant(kv, kvs, ranks * b, dk), rank, Times(b, dk))
  {
    var first := Times(rank, b);
    var lo, rows := Times(first, dk), Times(b, dk);
    var c, grid := Times(Blocks(first), Blocks(dk)), Times(Blocks(b), Blocks(dk));
    RankSlice(kv, kvs, ranks, b, dk, rank, first, lo, rows, c, grid);
    own := Dequant(kv[lo..lo + rows], kvs[c..c + grid], b, dk);
  }

  // --- the ranks together are the whole, whatever the number of ranks ------

  /** `n` elements picked out of `rows` by `source`, rounded. */
  function Gather(n: nat, source: nat -> nat, round: real -> real, rows: seq<real>): seq<real>
    requires forall x: nat :: x < n ==> source(x) < |rows|
  {
    seq(n, x requires 0 <= x < n => round(rows[source(x)]))
  }

  /** The regrouped tensor of `heads` heads. */
  function Grouped(heads: nat, a: nat, b: nat, span: nat, inner: (nat, nat) -> nat, round: real -> real,
                   rows: seq<real>):
      (t: seq<real>)
    requires Inside(a, b, span, inner) && |rows| == heads * span
    ensures |t| == heads * a * b
  {
    RegroupInRange(a, b, span, inner, heads);
    Gather(heads * a * b, RegroupMap(a, b, span, inner), round, rows)
  }

  /** Gathering from one rank's rows is that rank's part of gathering from all of them. */
  lemma GatherPart(n: nat, all: nat, source: nat -> nat, round: real -> real, rows: seq<real>,
                   off: nat, base: nat, w: nat)
    requires off + n <= all && base + w <= |rows|
    requires forall x: nat :: x < all ==> source(x) < |rows|
    requires forall y: nat :: y < n ==> Moves(source, off, base, w, y)
    ensures forall y: nat :: y < n ==> source(y) < w
    ensures Gather(n, source, round, rows[base..base + w]) == Gather(all, source, round, rows)[off..off + n]
  {
    forall y: nat | y < n
      ensures source(y) < w && rows[base..base + w][source(y)] == rows[source(off + y)]
    {
      assert Moves(source, off, base, w, y);
    }
  }

  lemma RankMoves(a: nat, b: nat, span: nat, inner: (nat, nat) -> nat, h: nat, rank: nat, off: nat, base: nat)
    requires Inside(a, b, span, inner) && off == rank * h * a * b && base == rank * h * span
    ensures forall y: nat :: y < h * a * b ==> Moves(RegroupMap(a, b, span, inner), off, base, h * span, y)
  {
    RegroupInRange(a, b, span, inner, h);
    forall y: nat | y < h * a * b
      ensures Moves(RegroupMap(a, b, span, inner), off, base, h * span, y)
    {
      RegroupShift(a, b, span, inner, rank * h, y, off, base);
    }
  }

  /** Sizes of a tensor with `c` elements a head, counted by head and by rank. */
  lemma RankSizes(tp: nat, h: nat, nh: nat, rank: nat, c: nat)
    requires nh == tp * h
    ensures nh * c == tp * (h * c) && rank * h * c == rank * (h * c)
  {
    Assoc(tp, h, c);
    Assoc(rank, h, c);
  }

  /** Regrouping a run of heads gives that run of the regrouped whole. */
  lemma GroupedPart(a: nat, b: nat, span: nat, inner: (nat, nat) -> nat, round: real -> real, rows: seq<real>,
                    h: nat, nh: nat, n: nat, all: nat, w: nat, off: nat, base: nat)
    requires Inside(a, b, span, inner) && n == h * a * b && all == nh * a * b && w == h * span && |rows| == nh * span
    requires off + n <= all && base + w <= |rows|
    requires forall y: nat :: y < n ==> Moves(RegroupMap(a, b, span, inner), off, base, w, y)
    ensures Grouped(h, a, b, span, inner, round, rows[base..base + w]) ==
            Grouped(nh, a, b, span, inner, round, rows)[off..off + n]
  {
    RegroupInRange(a, b, span, inner, nh);
    GatherPart(n, all, RegroupMap(a, b, span, inner), round, rows, off, base, w);
  }

  /** Rank `rank`'s regrouped tensor is its share of the whole weight's, for every number of ranks. */
  lemma RankGrouped(tp: nat, h: nat, nh: nat, rank: nat, a: nat, b: nat, span: nat, inner: (nat, nat) -> nat,
                    round: real -> real, rows: seq<real>, n: nat, w: nat)
    requires Inside(a, b, span, inner) && rank < tp && |rows| == nh * span && n == h * a * b && w == h * span
    requires nh * a * b == tp * n && rank * h * a * b == rank * n && nh * span == tp * w && rank * h * span == rank * w
    ensures rank * w + w <= |rows| && rank * n + n <= nh * a * b
    ensures Grouped(h, a, b, span, inner, round, Share(rows, rank, w)) ==
            Share(Grouped(nh, a, b, span, inner, round, rows), rank, n)
  {
    ShareFits(tp, rank, w);
    ShareFits(tp, rank, n);
    var all, off, base := nh * a * b, rank * n, rank * w;
    RankMoves(a, b, span, inner, h, rank, off, base);
    GroupedPart(a, b, span, inner, round, rows, h, nh, n, all, w, off, base);
    ShareIs(rows, rank, w, base);
    ShareIs(Grouped(nh, a, b, span, inner, round, rows), rank, n, off);
  }

  lemma ShareIs(t: seq<real>, rank: nat, n: nat, lo: nat)
    requires lo == rank * n && lo + n <= |t|
    ensures Share(t, rank, n) == t[lo..lo + n]
  {
  }

  // --- keys and values ----------------------------------------------------

  /** Elements a head takes in the weight: its key rows, then its value rows. */
  function Span(m: Mla): nat { Width(m) * m.dk }

  /** Key (d, p) of a head is in its row p and column d. */
  function KeyInner(m: Mla): (nat, nat) -> nat { (d, p) => p * m.dk + d }

  /** Value (v, d) of a head is in its row qn + v and column d. */
  function ValueInner(m: Mla): (nat, nat) -> nat { (v, d) => (m.qn + v) * m.dk + d }

  lemma InnersInside(m: Mla)
    requires m.qn > 0 && m.vd > 0 && m.dk > 0
    ensures Inside(m.dk, m.qn, Span(m), KeyInner(m)) && Inside(m.vd, m.dk, Span(m), ValueInner(m))
  {
    forall d: nat, p: nat | d < m.dk && p < m.qn
      ensures KeyInner(m)(d, p) < Span(m)
    {
      InRow(p, Width(m), m.dk, d);
    }
    forall v: nat, d: nat | v < m.vd && d < m.dk
      ensures ValueInner(m)(v, d) < Span(m)
    {
      InRow(m.qn + v, Width(m), m.dk, d);
    }
  }

  function KeyCount(m: Mla, heads: nat): nat { heads * m.dk * m.qn }

  function ValueCount(m: Mla, heads: nat): nat { heads * m.vd * m.dk }

  /** Keys [heads, dk, qn] and values [heads, vd, dk] of `heads` heads, out of their dequantised rows. */
  function Keys(m: Mla, heads: nat, round: real -> real, rows: seq<real>): seq<real>
    requires m.qn > 0 && m.vd > 0 && m.dk > 0 && |rows| == heads * Span(m)
  {
    InnersInside(m);
    Grouped(heads, m.dk, m.qn, Span(m), KeyInner(m), round, rows)
  }

  function Values(m: Mla, heads: nat, round: real -> real, rows: seq<real>): seq<real>
    requires m.qn > 0 && m.vd > 0 && m.dk > 0 && |rows| == heads * Span(m)
  {
    InnersInside(m);
    Grouped(heads, m.vd, m.dk, Span(m), ValueInner(m), round, rows)
  }

  /** The whole key-value weight, dequantised. */
  function WholeRows(m: Mla, kv: seq<real>, kvs: seq<real>): (rows: seq<real>)
    requires Shaped(kv, kvs, m.nh * Width(m), m.dk)
    ensures |rows| == m.nh * Span(m) && |rows| == |kv|
  {
    Assoc(m.nh, Width(m), m.dk);
    Dequant(kv, kvs, m.nh * Width(m), m.dk)
  }

  /** Element (h, i, j) of a regrouped tensor. */
  lemma GroupedAt(heads: nat, a: nat, b: nat, span: nat, inner: (nat, nat) -> nat, round: real -> real,
                  rows: seq<real>, h: nat, i: nat, j: nat, x: nat, y: nat)
    requires Inside(a, b, span, inner) && |rows| == heads * span && h < heads && i < a && j < b
    requires x == (h * a + i) * b + j && y == h * span + inner(i, j)
    ensures x < heads * a * b && y < |rows|
    ensures Grouped(heads, a, b, span, inner, round, rows)[x] == round(rows[y])
  {
    InRow(h, heads, a, i);
    InRow(h * a + i, heads * a, b, j);
    InRow(h, heads, span, inner(i, j));
    RegroupAt(a, b, span, inner, h, i, j);
    RegroupInRange(a, b, span, inner, heads);
    GatherAt(heads * a * b, RegroupMap(a, b, span, inner), round, rows, x, y);
  }

  lemma GatherAt(n: nat, source: nat -> nat, round: real -> real, rows: seq<real>, x: nat, y: nat)
    requires forall k: nat :: k < n ==> source(k) < |rows|
    requires x < n && source(x) == y
    ensures y < |rows| && Gather(n, source, round, rows)[x] == round(rows[y])
  {
  }

  /** Element `row`, `d` of the weight, counted by head. */
  lemma RowOfHead(m: Mla, h: nat, r: nat, d: nat, row: nat)
    requires row == h * Width(m) + r
    ensures row * m.dk + d == h * Span(m) + (r * m.dk + d)
  {
    Distribute(h * Width(m), r, m.dk);
    Assoc(h, Width(m), m.dk);
  }

  /** Key `x` = (h, d, p): element `i` of the weight, in row h*(qn+vd)+p and column d, times its block's scale `j`. */
  lemma KeyElement(m: Mla, kv: seq<real>, kvs: seq<real>, round: real -> real,
                   h: nat, d: nat, p: nat, row: nat, x: nat, i: nat, j: nat)
    requires m.qn > 0 && m.vd > 0 && Shaped(kv, kvs, m.nh * Width(m), m.dk) && h < m.nh && d < m.dk && p < m.qn
    requires row == h * Width(m) + p && x == (h * m.dk + d) * m.qn + p
    requires i == row * m.dk + d && j == row / BLOCK * Blocks(m.dk) + d / BLOCK
    ensures x < m.nh * m.dk * m.qn && i < |kv| && j < |kvs|
    ensures Keys(m, m.nh, round, WholeRows(m, kv, kvs))[x] == round(kv[i] * kvs[j])
  {
    InRow(h, m.nh, Width(m), p);
    DequantAt(kv, kvs, m.nh * Width(m), m.dk, row, d, i, j);
    RowOfHead(m, h, p, d, row);
    InnersInside(m);
    GroupedAt(m.nh, m.dk, m.qn, Span(m), KeyInner(m), round, WholeRows(m, kv, kvs), h, d, p, x, i);
  }

  /** Value `x` = (h, v, d): element `i` of the weight, in row h*(qn+vd)+qn+v and column d, times its block's
      scale `j`. */
  lemma ValueElement(m: Mla, kv: seq<real>, kvs: seq<real>, round: real -> real,
                     h: nat, v: nat, d: nat, row: nat, x: nat, i: nat, j: nat)
    requires m.qn > 0 && m.vd > 0 && Shaped(kv, kvs, m.nh * Width(m), m.dk) && h < m.nh && d < m.dk && v < m.vd
    requires row == h * Width(m) + (m.qn + v) && x == (h * m.vd + v) * m.dk + d
    requires i == row * m.dk + d && j == row / BLOCK * Blocks(m.dk) + d / BLOCK
    ensures x < m.nh * m.vd * m.dk && i < |kv| && j < |kvs|
    ensures Values(m, m.nh, round, WholeRows(m, kv, kvs))[x] == round(kv[i] * kvs[j])
  {
    InRow(h, m.nh, Width(m), m.qn + v);
    DequantAt(kv, kvs, m.nh * Width(m), m.dk, row, d, i, j);
    RowOfHead(m, h, m.qn + v, d, row);
    InnersInside(m);
    GroupedAt(m.nh, m.vd, m.dk, Span(m), ValueInner(m), round, WholeRows(m, kv, kvs), h, v, d, x, i);
  }

  // --- scaling ------------------------------------------------------------

  function MaxAbs(t: seq<real>): real {
    if t == [] then 0.0
    else
      var rest := MaxAbs(t[..|t| - 1]);
      if Abs(t[|t| - 1]) > rest then Abs(t[|t| - 1]) else rest
  }

  const AMAX_MIN := 0.0000000001
  function Amax(t: seq<real>): (a: real)
    ensures a > 0.0
  {
    if MaxAbs(t) < AMAX_MIN then AMAX_MIN else MaxAbs(t)
  }

  function Stretch(amax: real): (q: real)
    requires amax > 0.0
    ensures q >= 0.0 && amax * q == E4M3_MAX
  {
    E4M3_MAX / amax
  }

  function Multiplier(r: Rounding, t: seq<real>): real { r.bf16(Stretch(Amax(t))) }

  function Clamp(x: real): real {
    if x < -E4M3_MAX then -E4M3_MAX else if x > E4M3_MAX then E4M3_MAX else x
  }

  function ToE4m3(r: Rounding, x: real, multiplier: real): real { r.e4m3(Clamp(r.bf16(x * multiplier))) }

  function Quantised(r: Rounding, t: seq<real>): seq<real> {
    seq(|t|, x requires 0 <= x < |t| => ToE4m3(r, t[x], Multiplier(r, t)))
  }

  lemma {:induction false} MaxAbsBounds(t: seq<real>, x: nat)
    requires x < |t|
    ensures Abs(t[x]) <= MaxAbs(t)
  {
    if x < |t| - 1 {
      MaxAbsBounds(t[..|t| - 1], x);
    }
  }

  /** In exact arithmetic no scaled value leaves the e4m3 range, so the clamp changes nothing. */
  lemma ScaledInRange(t: seq<real>, x: nat)
    requires x < |t|
    ensures Abs(t[x] * Stretch(Amax(t))) <= E4M3_MAX
    ensures Clamp(t[x] * Stretch(Amax(t))) == t[x] * Stretch(Amax(t))
  {
    MaxAbsBounds(t, x);
    StretchInRange(t[x], Amax(t));
  }

  lemma StretchInRange(v: real, amax: real)
    requires amax > 0.0 && Abs(v) <= amax
    ensures Abs(v * Stretch(amax)) <= E4M3_MAX && Clamp(v * Stretch(amax)) == v * Stretch(amax)
  {
    TimesAtMost(Abs(v), amax, Stretch(amax), E4M3_MAX);
    ClampIdle(v * Stretch(amax));
  }

  lemma ClampIdle(y: real)
    requires Abs(y) <= E4M3_MAX
    ensures Clamp(y) == y
  {
  }

  lemma TimesAtMost(v: real, a: real, q: real, top: real)
    requires 0.0 <= v <= a && q >= 0.0 && a * q == top
    ensures v * q <= top
  {
    assert (a - v) * q >= 0.0;
    assert (a - v) * q == a * q - v * q;
  }

  // --- the derivation -----------------------------------------------------

  /** `quant` and `scales` are the per-rank quantisation of `t`, `n` elements a rank. */
  ghost predicate QuantisedByRank(r: Rounding, t: seq<real>, n: nat, ranks: nat, quant: seq<real>, scales: seq<real>) {
    && |scales| == ranks
    && ranks * n <= |t| && |quant| == ranks * n
    && forall rank: nat :: rank < ranks ==> RankQuantised(r, t, n, rank, quant, scales)
  }

  ghost predicate RankQuantised(r: Rounding, t: seq<real>, n: nat, rank: nat, quant: seq<real>, scales: seq<real>) {
    && rank < |scales| && rank * n + n <= |t| && rank * n + n <= |quant|
    && Multiplier(r, Share(t, rank, n)) > 0.0
    && Share(quant, rank, n) == Quantised(r, Share(t, rank, n))
    && scales[rank] == 1.0 / Multiplier(r, Share(t, rank, n))
  }

  lemma AppendRank(r: Rounding, t: seq<real>, n: nat, ranks: nat, quant: seq<real>, scales: seq<real>)
    requires QuantisedByRank(r, t, n, ranks, quant, scales) && ranks * n + n <= |t|
    requires Multiplier(r, Share(t, ranks, n)) > 0.0
    ensures QuantisedByRank(r, t, n, ranks + 1, quant + Quantised(r, Share(t, ranks, n)),
                            scales + [1.0 / Multiplier(r, Share(t, ranks, n))])
  {
    var next := Quantised(r, Share(t, ranks, n));
    var quant2, scales2 := quant + next, scales + [1.0 / Multiplier(r, Share(t, ranks, n))];
    Distribute(ranks, 1, n);
    forall rank: nat | rank < ranks + 1
      ensures RankQuantised(r, t, n, rank, quant2, scales2)
    {
      if rank < ranks {
        assert RankQuantised(r, t, n, rank, quant, scales);
        assert Share(quant2, rank, n) == Share(quant, rank, n);
      } else {
        assert Share(quant2, ranks, n) == next;
      }
    }
  }

  datatype Tensors = Tensors(wk: seq<real>, wkScale: seq<real>, wv: seq<real>, wvScale: seq<real>)

  /** `t` holds the first `ranks` ranks of the keys and values of `rows`, cut by rank and quantised. */
  ghost predicate Derived(m: Mla, h: nat, rows: seq<real>, r: Rounding, ranks: nat, t: Tensors)
    requires m.qn > 0 && m.vd > 0 && m.dk > 0 && |rows| == m.nh * Span(m)
  {
    && QuantisedByRank(r, Keys(m, m.nh, r.bf16, rows), KeyCount(m, h), ranks, t.wk, t.wkScale)
    && QuantisedByRank(r, Values(m, m.nh, r.bf16, rows), ValueCount(m, h), ranks, t.wv, t.wvScale)
  }

  /** Rank `rank`'s share of the keys and of the values each get a positive multiplier. */
  ghost predicate RankPositive(m: Mla, h: nat, rows: seq<real>, r: Rounding, rank: nat)
    requires m.qn > 0 && m.vd > 0 && m.dk > 0 && |rows| == m.nh * Span(m)
  {
    SharePositive(r, Keys(m, m.nh, r.bf16, rows), rank, KeyCount(m, h)) &&
    SharePositive(r, Values(m, m.nh, r.bf16, rows), rank, ValueCount(m, h))
  }

  ghost predicate AllPositive(m: Mla, h: nat, rows: seq<real>, r: Rounding, ranks: nat)
    requires m.qn > 0 && m.vd > 0 && m.dk > 0 && |rows| == m.nh * Span(m)
  {
    forall rank: nat :: rank < ranks ==> RankPositive(m, h, rows, r, rank)
  }

  ghost predicate SharePositive(r: Rounding, t: seq<real>, rank: nat, n: nat) {
    rank * n + n <= |t| && Multiplier(r, Share(t, rank, n)) > 0.0
  }

  /** A tensor of the checkpoint: declared dtype and shape, and its elements. */
  datatype Original = Original(dtype: string, shape: seq<nat>, elements: seq<real>)

  /** The tensor is there, declared and stored as an `n` by `k` matrix of `dtype`. */
  predicate IsMatrix(t: Option<Original>, dtype: string, n: nat, k: nat) {
    t.Some? && t.value.dtype == dtype && t.value.shape == [n, k] && |t.value.elements| == n * k
  }

  method CheckMatrix(t: Option<Original>, dtype: string, n: nat, k: nat) returns (ok: bool)
    ensures ok <==> IsMatrix(t, dtype, n, k)
  {
    if t.None? {
      return false;
    }
    ok := t.value.dtype == dtype && t.value.shape == [n, k] && |t.value.elements| == n * k;
  }

  function AllRows(m: Mla): nat { Times(m.nh, Width(m)) }

  /** The key-value weight and its grid, as the checkpoint must have them. */
  ghost predicate Stored(m: Mla, kv: Option<Original>, kvs: Option<Original>) {
    m.dk > 0 && IsMatrix(kv, "F8_E4M3", AllRows(m), m.dk) && IsMatrix(kvs, "F32", Blocks(AllRows(m)), Blocks(m.dk))
  }

  function StoredRows(m: Mla, kv: Option<Original>, kvs: Option<Original>): (rows: seq<real>)
    requires Stored(m, kv, kvs)
    ensures |rows| == m.nh * Span(m)
  {
    WholeRows(m, kv.value.elements, kvs.value.elements)
  }

  /** Admissible head shards are whole blocks of rows, so the grid has one row for each 128. */
  lemma RowsAligned(m: Mla)
    requires Admissible(m)
    ensures AllRows(m) / BLOCK == Blocks(AllRows(m)) && m.dk / BLOCK == Blocks(m.dk)
  {
    var b := Times(m.nh / m.tp, Width(m));
    RowsByRank(m, m.nh / m.tp);
    assert AllRows(m) == m.tp * b && b == b / BLOCK * BLOCK;
    Assoc(m.tp, b / BLOCK, BLOCK);
  }

  /**
    Rank by rank: dequantise the rank's rows, regroup, quantise with the rank's own multiplier.  The result is
    the whole weight's keys and values, cut into ranks and quantised, and nothing else depends on `tp`.
   */
  method MlaTensors(m: Mla, kv: Option<Original>, kvs: Option<Original>, r: Rounding) returns (out: Result<Tensors>)
    ensures out.Success? <==>
              Admissible(m) && Stored(m, kv, kvs) &&
              AllPositive(m, m.nh / m.tp, StoredRows(m, kv, kvs), r, m.tp)
    ensures out.Success? ==> Derived(m, m.nh / m.tp, StoredRows(m, kv, kvs), r, m.tp, out.value)
    ensures out.Success? ==> QuantisedElements(m, m.nh / m.tp, StoredRows(m, kv, kvs), r, out.value)
  {
    if !Admissible(m) {
      return Failure("block-aligned TP head shards and latent dimensions required");
    }
    RowsAligned(m);
    var kvOk := CheckMatrix(kv, "F8_E4M3", AllRows(m), m.dk);
    if !kvOk {
      return Failure("unexpected weight");
    }
    var kvsOk := CheckMatrix(kvs, "F32", AllRows(m) / 128, m.dk / 128);
    if !kvsOk {
      return Failure("unexpected scale grid");
    }
    out := DeriveByRank(m, m.nh / m.tp, kv.value.elements, kvs.value.elements, r);
    if out.Success? {
      DerivedElements(m, m.nh / m.tp, StoredRows(m, kv, kvs), r, m.tp, out.value);
    }
  }

  /** A rank's keys and values are its shares of the whole weight's. */
  lemma RankShares(m: Mla, h: nat, rows: seq<real>, own: seq<real>, round: real -> real, rank: nat)
    requires m.qn > 0 && m.vd > 0 && m.dk > 0 && m.nh == m.tp * h && rank < m.tp && |rows| == m.nh * Span(m)
    requires rank * (h * Span(m)) + h * Span(m) <= |rows| && own == Share(rows, rank, h * Span(m))
    ensures rank * KeyCount(m, h) + KeyCount(m, h) <= KeyCount(m, m.nh)
    ensures rank * ValueCount(m, h) + ValueCount(m, h) <= ValueCount(m, m.nh)
    ensures Keys(m, h, round, own) == Share(Keys(m, m.nh, round, rows), rank, KeyCount(m, h))
    ensures Values(m, h, round, own) == Share(Values(m, m.nh, round, rows), rank, ValueCount(m, h))
  {
    InnersInside(m);
    RankSizes(m.tp, h, m.nh, rank, Span(m));
    CountSizes(m.tp, h, m.nh, rank, m.dk, m.qn);
    CountSizes(m.tp, h, m.nh, rank, m.vd, m.dk);
    RankGrouped(m.tp, h, m.nh, rank, m.dk, m.qn, Span(m), KeyInner(m), round, rows, KeyCount(m, h), h * Span(m));
    RankGrouped(m.tp, h, m.nh, rank, m.vd, m.dk, Span(m), ValueInner(m), round, rows, ValueCount(m, h), h * Span(m));
  }

  lemma CountSizes(tp: nat, h: nat, nh: nat, rank: nat, a: nat, b: nat)
    requires nh == tp * h
    ensures nh * a * b == tp * (h * a * b) && rank * h * a * b == rank * (h * a * b)
  {
    RankSizes(tp, h, nh, rank, a);
    Assoc(tp, h * a, b);
    Assoc(rank, h * a, b);
  }

  method DeriveRank(m: Mla, h: nat, kv: seq<real>, kvs: seq<real>, r: Rounding, rank: nat, t: Tensors)
    returns (next: Result<Tensors>)
    requires Split(m, h) && rank < m.tp && Shaped(kv, kvs, m.nh * Width(m), m.dk)
    requires Derived(m, h, WholeRows(m, kv, kvs), r, rank, t)
    ensures next.Success? <==> RankPositive(m, h, WholeRows(m, kv, kvs), r, rank)
    ensures next.Success? ==> Derived(m, h, WholeRows(m, kv, kvs), r, rank + 1, next.value)
  {
    RowsByRank(m, h);
    Assoc(h, Width(m), m.dk);
    ghost var rows := WholeRows(m, kv, kvs);
    var own := RankRows(kv, kvs, m.tp, h * Width(m), m.dk, rank);
    RankShares(m, h, rows, own, r.bf16, rank);
    next := AddRank(t, Keys(m, h, r.bf16, own), Values(m, h, r.bf16, own), r,
                    Keys(m, m.nh, r.bf16, rows), Values(m, m.nh, r.bf16, rows),
                    KeyCount(m, h), ValueCount(m, h), rank);
  }

  lemma NoneDerived(m: Mla, h: nat, rows: seq<real>, r: Rounding)
    requires m.qn > 0 && m.vd > 0 && m.dk > 0 && |rows| == m.nh * Span(m)
    ensures Derived(m, h, rows, r, 0, Tensors([], [], [], []))
  {
  }

  method DeriveByRank(m: Mla, h: nat, kv: seq<real>, kvs: seq<real>, r: Rounding) returns (out: Result<Tensors>)
    requires Split(m, h) && Shaped(kv, kvs, m.nh * Width(m), m.dk)
    ensures out.Success? <==> AllPositive(m, h, WholeRows(m, kv, kvs), r, m.tp)
    ensures out.Success? ==> Derived(m, h, WholeRows(m, kv, kvs), r, m.tp, out.value)
  {
    ghost var rows := WholeRows(m, kv, kvs);
    var t := Tensors([], [], [], []);
    NoneDerived(m, h, rows, r);
    for rank := 0 to m.tp
      invariant Derived(m, h, rows, r, rank, t)
      invariant AllPositive(m, h, rows, r, rank)
    {
      var next := DeriveRank(m, h, kv, kvs, r, rank, t);
      if next.Failure? {
        return Failure(next.error);
      }
      t := next.value;
    }
    out := Success(t);
  }

  lemma RowsByRank(m: Mla, h: nat)
    requires m.nh == m.tp * h
    ensures m.nh * Width(m) == m.tp * (h * Width(m))
  {
    Assoc(m.tp, h, Width(m));
  }

  /** Quantises one rank's keys and values, each with its own multiplier. */
  method AddRank(t: Tensors, uk: seq<real>, uv: seq<real>, r: Rounding,
                 ghost keys: seq<real>, ghost values: seq<real>, ghost nk: nat, ghost nv: nat, ghost rank: nat)
    returns (next: Result<Tensors>)
    requires QuantisedByRank(r, keys, nk, rank, t.wk, t.wkScale) && rank * nk + nk <= |keys|
    requires QuantisedByRank(r, values, nv, rank, t.wv, t.wvScale) && rank * nv + nv <= |values|
    requires uk == Share(keys, rank, nk) && uv == Share(values, rank, nv)
    ensures next.Success? <==> Multiplier(r, uk) > 0.0 && Multiplier(r, uv) > 0.0
    ensures next.Success? ==>
              && QuantisedByRank(r, keys, nk, rank + 1, next.value.wk, next.value.wkScale)
              && QuantisedByRank(r, values, nv, rank + 1, next.value.wv, next.value.wvScale)
  {
    var mk, mv := Multiplier(r, uk), Multiplier(r, uv);
    if mk <= 0.0 || mv <= 0.0 {
      return Failure("invalid derived MLA FP8 scale");
    }
    AppendRank(r, keys, nk, rank, t.wk, t.wkScale);
    AppendRank(r, values, nv, rank, t.wv, t.wvScale);
    return Success(Tensors(t.wk + Quantised(r, uk), t.wkScale + [1.0 / mk],
                           t.wv + Quantised(r, uv), t.wvScale + [1.0 / mv]));
  }

  // --- the elements of the result -----------------------------------------

  /** `a` is the largest magnitude of the `n` elements from `lo` on, but no less than 1e-10. */
  ghost predicate IsShareAmax(t: seq<real>, lo: nat, n: nat, a: real)
    requires lo + n <= |t|
  {
    && a >= 0.0000000001
    && (forall k :: lo <= k < lo + n ==> Abs(t[k]) <= a)
    && (a == 0.0000000001 || exists k :: lo <= k < lo + n && Abs(t[k]) == a)
  }

  /** `value` is `x` times the rounded quotient of 448 and `amax`, rounded, clipped to 448 and rounded again; `scale`
      is the reciprocal of that quotient. */
  ghost predicate QuantisedWith(r: Rounding, x: real, amax: real, value: real, scale: real) {
    exists q :: amax * q == 448.0 && QuantisedBy(r, x, r.bf16(q), value, scale)
  }

  ghost predicate QuantisedBy(r: Rounding, x: real, multiplier: real, value: real, scale: real) {
    var y := r.bf16(x * multiplier);
    && multiplier > 0.0 && scale * multiplier == 1.0
    && value == r.e4m3(if y < -448.0 then -448.0 else if y > 448.0 then 448.0 else y)
  }

  lemma {:induction false} MaxAbsReached(t: seq<real>)
    ensures MaxAbs(t) == 0.0 || exists k :: 0 <= k < |t| && Abs(t[k]) == MaxAbs(t)
  {
    if t != [] {
      MaxAbsReached(t[..|t| - 1]);
    }
  }

  lemma AmaxOfShare(t: seq<real>, rank: nat, n: nat, lo: nat)
    requires lo == rank * n && lo + n <= |t|
    ensures IsShareAmax(t, lo, n, Amax(Share(t, rank, n)))
  {
    var s := Share(t, rank, n);
    forall k | lo <= k < lo + n
      ensures Abs(t[k]) <= Amax(s)
    {
      MaxAbsBounds(s, k - lo);
      assert s[k - lo] == t[k];
    }
    MaxAbsReached(s);
    if MaxAbs(s) >= AMAX_MIN {
      var k :| 0 <= k < |s| && Abs(s[k]) == MaxAbs(s);
      assert s[k] == t[lo + k];
    }
  }

  /** Every element a rank holds is its own element of the whole, quantised with the amax of the rank's share. */
  lemma RankElement(r: Rounding, t: seq<real>, n: nat, ranks: nat, quant: seq<real>, scales: seq<real>,
                    rank: nat, lo: nat, i: nat)
    requires QuantisedByRank(r, t, n, ranks, quant, scales) && rank < ranks && lo == rank * n && lo <= i < lo + n
    ensures lo + n <= |t| && i < |quant| && rank < |scales|
    ensures exists a :: IsShareAmax(t, lo, n, a) && QuantisedWith(r, t[i], a, quant[i], scales[rank])
  {
    assert RankQuantised(r, t, n, rank, quant, scales);
    var s := Share(t, rank, n);
    AmaxOfShare(t, rank, n, lo);
    ElementOfShare(r, s, i - lo);
    assert Share(quant, rank, n)[i - lo] == quant[i] && s[i - lo] == t[i];
  }

  lemma ElementOfShare(r: Rounding, s: seq<real>, k: nat)
    requires k < |s| && Multiplier(r, s) > 0.0
    ensures QuantisedWith(r, s[k], Amax(s), Quantised(r, s)[k], 1.0 / Multiplier(r, s))
  {
    ByReciprocal(r, s[k], Multiplier(r, s), 1.0 / Multiplier(r, s));
    assert Amax(s) * Stretch(Amax(s)) == 448.0;
  }

  lemma ByReciprocal(r: Rounding, x: real, m: real, scale: real)
    requires m > 0.0 && scale == 1.0 / m
    ensures QuantisedBy(r, x, m, ToE4m3(r, x, m), scale)
  {
  }

  /** Both roundings keep every value. */
  ghost predicate Exact(r: Rounding) {
    (forall v :: r.bf16(v) == v) && forall v :: r.e4m3(v) == v
  }

  lemma ExactValue(r: Rounding, x: real, amax: real, value: real, scale: real)
    requires Exact(r) && QuantisedWith(r, x, amax, value, scale) && amax > 0.0 && Abs(x) <= amax
    ensures value * scale == x && Abs(value) * amax == 448.0 * Abs(x)
  {
    var q :| amax * q == 448.0 && QuantisedBy(r, x, r.bf16(q), value, scale);
    assert r.bf16(q) == q;
    ExactBy(r, x, amax, q, x * q, value, scale);
  }

  lemma ExactBy(r: Rounding, x: real, amax: real, q: real, y: real, value: real, scale: real)
    requires Exact(r) && amax * q == 448.0 && QuantisedBy(r, x, q, value, scale) && Abs(x) <= amax && y == x * q
    ensures value * scale == x && Abs(value) * amax == 448.0 * Abs(x)
  {
    Unclipped(x, amax, q, y);
    assert r.bf16(y) == y && r.e4m3(y) == y;
    Undone(x, amax, q, y, scale);
  }

  lemma Unclipped(x: real, amax: real, q: real, y: real)
    requires q > 0.0 && y == x * q && amax * q == 448.0 && Abs(x) <= amax
    ensures Abs(y) == Abs(x) * q <= 448.0
  {
    TimesAtMost(Abs(x), amax, q, 448.0);
    if x >= 0.0 {
      assert x * q >= 0.0;
    } else {
      assert (-x) * q > 0.0 && (-x) * q == -y;
    }
  }

  lemma Undone(x: real, amax: real, q: real, y: real, scale: real)
    requires q > 0.0 && y == x * q && amax * q == 448.0 && scale * q == 1.0 && Abs(y) == Abs(x) * q
    ensures y * scale == x && Abs(y) * amax == 448.0 * Abs(x)
  {
    Swap(x, q, scale);
    Swap(Abs(x), q, amax);
  }

  lemma Swap(a: real, b: real, c: real)
    ensures a * b * c == a * (c * b)
  {
  }

  /** Without rounding, each value times its rank's scale is the element it stands for, and an element of the
      largest magnitude of its share, unless that is all but zero, lands on 448. */
  lemma ExactElement(r: Rounding, t: seq<real>, n: nat, ranks: nat, quant: seq<real>, scales: seq<real>,
                     rank: nat, lo: nat, i: nat)
    requires Exact(r) && QuantisedByRank(r, t, n, ranks, quant, scales) && rank < ranks
    requires lo == rank * n && lo <= i < lo + n
    ensures lo + n <= |t| && i < |quant| && rank < |scales|
    ensures quant[i] * scales[rank] == t[i] && Abs(quant[i]) <= 448.0
    ensures Abs(t[i]) >= 0.0000000001 && LargestOf(t, lo, n, i) ==> Abs(quant[i]) == 448.0
  {
    RankElement(r, t, n, ranks, quant, scales, rank, lo, i);
    FromAmax(r, t, lo, n, i, quant[i], scales[rank]);
  }

  lemma FromAmax(r: Rounding, t: seq<real>, lo: nat, n: nat, i: nat, value: real, scale: real)
    requires Exact(r) && lo <= i < lo + n <= |t|
    requires exists a :: IsShareAmax(t, lo, n, a) && QuantisedWith(r, t[i], a, value, scale)
    ensures value * scale == t[i] && Abs(value) <= 448.0
    ensures Abs(t[i]) >= 0.0000000001 && LargestOf(t, lo, n, i) ==> Abs(value) == 448.0
  {
    var a :| IsShareAmax(t, lo, n, a) && QuantisedWith(r, t[i], a, value, scale);
    ExactFrom(r, t[i], a, value, scale);
    if LargestOf(t, lo, n, i) {
      LargestIsAmax(t, lo, n, i, a);
    }
  }

  lemma ExactFrom(r: Rounding, x: real, a: real, value: real, scale: real)
    requires Exact(r) && QuantisedWith(r, x, a, value, scale) && a > 0.0 && Abs(x) <= a
    ensures value * scale == x && Abs(value) <= 448.0 && (Abs(x) == a ==> Abs(value) == 448.0)
  {
    ExactValue(r, x, a, value, scale);
    AtMostTop(Abs(value), a, Abs(x));
  }

  lemma LargestIsAmax(t: seq<real>, lo: nat, n: nat, i: nat, a: real)
    requires lo <= i < lo + n <= |t| && IsShareAmax(t, lo, n, a) && LargestOf(t, lo, n, i)
    ensures Abs(t[i]) >= 0.0000000001 ==> Abs(t[i]) == a
  {
  }

  ghost predicate LargestOf(t: seq<real>, lo: nat, n: nat, i: nat)
    requires lo <= i < lo + n <= |t|
  {
    forall k :: lo <= k < lo + n ==> Abs(t[k]) <= Abs(t[i])
  }

  lemma AtMostTop(v: real, a: real, x: real)
    requires a > 0.0 && x <= a && v * a == 448.0 * x
    ensures v <= 448.0 && (x == a ==> v == 448.0)
  {
    assert (448.0 - v) * a == 448.0 * (a - x);
    NoSignChange(448.0 - v, a);
  }

  lemma NoSignChange(d: real, a: real)
    requires a > 0.0 && d * a >= 0.0
    ensures d >= 0.0 && (d * a == 0.0 ==> d == 0.0)
  {
  }

  /** The tensors of a successful derivation, element by element: rank by rank the keys and the values, each
      quantised with the amax of its own share. */
  ghost predicate TensorsOf(r: Rounding, keys: seq<real>, nk: nat, values: seq<real>, nv: nat, ranks: nat, t: Tensors) {
    && PartsOf(r, keys, nk, ranks, t.wk, t.wkScale)
    && PartsOf(r, values, nv, ranks, t.wv, t.wvScale)
  }

  ghost predicate PartsOf(r: Rounding, s: seq<real>, n: nat, ranks: nat, quant: seq<real>, scales: seq<real>) {
    && |scales| == ranks && |quant| == ranks * n <= |s|
    && forall rank: nat, i: nat :: rank < ranks && rank * n <= i < rank * n + n ==>
         PartAt(r, s, rank * n, n, rank, i, quant, scales)
  }

  ghost predicate PartAt(r: Rounding, s: seq<real>, lo: nat, n: nat, rank: nat, i: nat, quant: seq<real>,
                         scales: seq<real>) {
    && lo + n <= |s| && lo <= i < lo + n && i < |quant| && rank < |scales|
    && exists a :: IsShareAmax(s, lo, n, a) && QuantisedWith(r, s[i], a, quant[i], scales[rank])
  }

  lemma QuantisedParts(r: Rounding, s: seq<real>, n: nat, ranks: nat, quant: seq<real>, scales: seq<real>)
    requires QuantisedByRank(r, s, n, ranks, quant, scales)
    ensures PartsOf(r, s, n, ranks, quant, scales)
  {
    forall rank: nat, i: nat | rank < ranks && rank * n <= i < rank * n + n
      ensures PartAt(r, s, rank * n, n, rank, i, quant, scales)
    {
      RankElement(r, s, n, ranks, quant, scales, rank, Times(rank, n), i);
    }
  }

  /** Every element of the derived tensors, for `h` heads a rank. */
  ghost predicate QuantisedElements(m: Mla, h: nat, rows: seq<real>, r: Rounding, t: Tensors)
    requires m.qn > 0 && m.vd > 0 && m.dk > 0 && |rows| == m.nh * Span(m)
  {
    TensorsOf(r, Keys(m, m.nh, r.bf16, rows), Times(Times(h, m.dk), m.qn),
              Values(m, m.nh, r.bf16, rows), Times(Times(h, m.vd), m.dk), m.tp, t)
  }

  lemma DerivedElements(m: Mla, h: nat, rows: seq<real>, r: Rounding, ranks: nat, t: Tensors)
    requires m.qn > 0 && m.vd > 0 && m.dk > 0 && |rows| == m.nh * Span(m) && Derived(m, h, rows, r, ranks, t)
    ensures TensorsOf(r, Keys(m, m.nh, r.bf16, rows), Times(Times(h, m.dk), m.qn),
                      Values(m, m.nh, r.bf16, rows), Times(Times(h, m.vd), m.dk), ranks, t)
  {
    QuantisedParts(r, Keys(m, m.nh, r.bf16, rows), KeyCount(m, h), ranks, t.wk, t.wkScale);
    QuantisedParts(r, Values(m, m.nh, r.bf16, rows), ValueCount(m, h), ranks, t.wv, t.wvScale);
  }

  /** Where element (head, i, j) of a tensor [heads, a, b] lies among the elements of its rank. */
  lemma RankPosition(h: nat, rank: nat, g: nat, head: nat, a: nat, b: nat, i: nat, j: nat, n: nat, lo: nat, x: nat)
    requires g < h && i < a && j < b && n == h * a * b && lo == rank * n
    requires head == rank * h + g && x == (head * a + i) * b + j
    ensures lo <= x < lo + n
  {
    InRow(g, h, a, i);
    InRow(g * a + i, Times(h, a), b, j);
    Distribute(Times(rank, h), g, a);
    Assoc(rank, h, a);
    Assoc(rank, Times(h, a), b);
    Distribute(rank * (h * a), g * a + i, b);
  }

  lemma KeyPlace(m: Mla, hpr: nat, rank: nat, g: nat, head: nat, d: nat, p: nat, lo: nat, x: nat)
    requires m.nh == m.tp * hpr && rank < m.tp && g < hpr && d < m.dk && p < m.qn
    requires head == rank * hpr + g && x == (head * m.dk + d) * m.qn + p && lo == rank * KeyCount(m, hpr)
    ensures head < m.nh && lo <= x < lo + KeyCount(m, hpr)
  {
    InRow(rank, m.tp, hpr, g);
    RankPosition(hpr, rank, g, head, m.dk, m.qn, d, p, KeyCount(m, hpr), lo, x);
  }

  lemma ValuePlace(m: Mla, hpr: nat, rank: nat, g: nat, head: nat, v: nat, d: nat, lo: nat, x: nat)
    requires m.nh == m.tp * hpr && rank < m.tp && g < hpr && v < m.vd && d < m.dk
    requires head == rank * hpr + g && x == (head * m.vd + v) * m.dk + d && lo == rank * ValueCount(m, hpr)
    ensures head < m.nh && lo <= x < lo + ValueCount(m, hpr)
  {
    InRow(rank, m.tp, hpr, g);
    RankPosition(hpr, rank, g, head, m.vd, m.dk, v, d, ValueCount(m, hpr), lo, x);
  }

  /** Value `i` times the scale of `rank` is `y`. */
  ghost predicate ScalesTo(quant: seq<real>, scales: seq<real>, i: nat, rank: nat, y: real) {
    i < |quant| && rank < |scales| && quant[i] * scales[rank] == y
  }

  lemma BackTo(r: Rounding, t: seq<real>, n: nat, ranks: nat, quant: seq<real>, scales: seq<real>,
               rank: nat, lo: nat, i: nat, y: real)
    requires Exact(r) && QuantisedByRank(r, t, n, ranks, quant, scales) && rank < ranks
    requires lo == rank * n && lo <= i < lo + n && i < |t| && t[i] == r.bf16(y)
    ensures ScalesTo(quant, scales, i, rank, y)
  {
    ExactElement(r, t, n, ranks, quant, scales, rank, lo, i);
    assert r.bf16(y) == y;
  }

  /** Without rounding, wk[head, d, p] times the scale of the rank that holds the head is row head*(qn+vd)+p, column
      d of the stored weight, dequantised; `n` is the number of keys a rank holds. */
  lemma KeyReadsBack(m: Mla, hpr: nat, kv: seq<real>, kvs: seq<real>, r: Rounding, quant: seq<real>, scales: seq<real>,
                     n: nat, rank: nat, g: nat, head: nat, d: nat, p: nat, row: nat, x: nat, i: nat, j: nat)
    requires m.qn > 0 && m.vd > 0 && Shaped(kv, kvs, m.nh * Width(m), m.dk) && m.nh == m.tp * hpr
    requires Exact(r) && n == KeyCount(m, hpr)
    requires QuantisedByRank(r, Keys(m, m.nh, r.bf16, WholeRows(m, kv, kvs)), n, m.tp, quant, scales)
    requires rank < m.tp && g < hpr && d < m.dk && p < m.qn && head == rank * hpr + g
    requires row == head * Width(m) + p && x == (head * m.dk + d) * m.qn + p
    requires i == row * m.dk + d && j == row / BLOCK * Blocks(m.dk) + d / BLOCK
    ensures i < |kv| && j < |kvs| && ScalesTo(quant, scales, x, rank, kv[i] * kvs[j])
  {
    var lo := Times(rank, n);
    KeyPlace(m, hpr, rank, g, head, d, p, lo, x);
    KeyElement(m, kv, kvs, r.bf16, head, d, p, row, x, i, j);
    BackTo(r, Keys(m, m.nh, r.bf16, WholeRows(m, kv, kvs)), n, m.tp, quant, scales, rank, lo, x, kv[i] * kvs[j]);
  }

  /** ... and wv[head, v, d] is row head*(qn+vd)+qn+v, column d. */
  lemma ValueReadsBack(m: Mla, hpr: nat, kv: seq<real>, kvs: seq<real>, r: Rounding, quant: seq<real>,
                       scales: seq<real>, n: nat, rank: nat, g: nat, head: nat, v: nat, d: nat, row: nat, x: nat,
                       i: nat, j: nat)
    requires m.qn > 0 && m.vd > 0 && Shaped(kv, kvs, m.nh * Width(m), m.dk) && m.nh == m.tp * hpr
    requires Exact(r) && n == ValueCount(m, hpr)
    requires QuantisedByRank(r, Values(m, m.nh, r.bf16, WholeRows(m, kv, kvs)), n, m.tp, quant, scales)
    requires rank < m.tp && g < hpr && v < m.vd && d < m.dk && head == rank * hpr + g
    requires row == head * Width(m) + (m.qn + v) && x == (head * m.vd + v) * m.dk + d
    requires i == row * m.dk + d && j == row / BLOCK * Blocks(m.dk) + d / BLOCK
    ensures i < |kv| && j < |kvs| && ScalesTo(quant, scales, x, rank, kv[i] * kvs[j])
  {
    var lo := Times(rank, n);
    ValuePlace(m, hpr, rank, g, head, v, d, lo, x);
    ValueElement(m, kv, kvs, r.bf16, head, v, d, row, x, i, j);
    BackTo(r, Values(m, m.nh, r.bf16, WholeRows(m, kv, kvs)), n, m.tp, quant, scales, rank, lo, x, kv[i] * kvs[j]);
  }
}
