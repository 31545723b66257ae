/**
  MLA weight absorption (`glm52_prep.py`, `kimi_k3_prep.py`) and the o-projection fold
  (`glm52_prep_ofold.py`), over the reals.

  The checkpoint keeps, per head, a key and a value projection out of the latent and a query projection.
  The prepared weights never form keys or values: queries are mapped into the latent once, attention is
  taken over latents, and the value projection is merged into the output projection.
 */
module Absorption {
  import opened LinearMaps

  type Width = n: nat | n > 0 witness 1

  /** heads, latent width, no-rope width, rope width, value width, query-latent width */
  datatype Dims = Dims(nh: nat, dk: Width, qn: nat, dr: nat, vd: Width, ql: nat)

  /** The checkpoint's tensors: [nh*(qn+vd), dk], [nh*(qn+dr), ql] and [hidden, nh*vd]. */
  datatype Checkpoint = Checkpoint(kvB: Matrix, qB: Matrix, oProj: Matrix)

  // --- per-head views of the checkpoint -----------------------------------

  function KNope(d: Dims, w: Checkpoint, h: int): Matrix { (p, l) => w.kvB(h * (d.qn + d.vd) + p, l) }

  function ValueW(d: Dims, w: Checkpoint, h: int): Matrix { (v, l) => w.kvB(h * (d.qn + d.vd) + d.qn + v, l) }

  function QNope(d: Dims, w: Checkpoint, h: int): Matrix { (p, k) => w.qB(h * (d.qn + d.dr) + p, k) }

  // --- the prepared tensors, flattened as they are written ----------------

  /** [nh*dk, ql] */
  function QAbsorb(d: Dims, w: Checkpoint): Matrix
  {
    (row, k) => Product(Transpose(KNope(d, w, row / d.dk)), d.qn, QNope(d, w, row / d.dk))(row % d.dk, k)
  }

  /** [nh*dk, vd] */
  function VAbsorb(d: Dims, w: Checkpoint): Matrix
  {
    (row, v) => ValueW(d, w, row / d.dk)(v, row % d.dk)
  }

  /** [hidden, nh*dk], from the prepared value tensor and the output projection. */
  function OFold(d: Dims, vAbsorb: Matrix, oProj: Matrix): Matrix
  {
    (n, col) => Dot(d.vd, Tail(Row(oProj, n), col / d.dk * d.vd), Row(vAbsorb, col))
  }

  // --- one decode step ----------------------------------------------------

  /** The tokens' latents, the query latent, the rope part of each score, and the softmax. */
  datatype Step = Step(tokens: nat, latents: Matrix, q: Vector, rope: (int, int) -> real, softmax: seq<real> -> Vector)

  function Scores(s: Step, score: Vector): seq<real> {
    seq(s.tokens, t requires 0 <= t < s.tokens => score(t))
  }

  /** The checkpoint's own score of token `t` in head `h`: key times query. */
  function KeyScore(d: Dims, w: Checkpoint, s: Step, h: int): Vector {
    t => Dot(d.qn, Apply(KNope(d, w, h), d.dk, Row(s.latents, t)), Apply(QNope(d, w, h), d.ql, s.q)) + s.rope(h, t)
  }

  /** The prepared score: latent times absorbed query. */
  function LatentScore(d: Dims, w: Checkpoint, s: Step, h: int): Vector
  {
    t => Dot(d.dk, Row(s.latents, t), Tail(Apply(QAbsorb(d, w), d.ql, s.q), h * d.dk)) + s.rope(h, t)
  }

  /** The checkpoint's head output: attention over values. */
  function ValueOut(d: Dims, w: Checkpoint, s: Step, weights: Vector, h: int): Vector {
    v => Dot(s.tokens, weights, t => Apply(ValueW(d, w, h), d.dk, Row(s.latents, t))(v))
  }

  /** The prepared head output: attention over latents. */
  function LatentOut(s: Step, weights: Vector): Vector { Apply(Transpose(s.latents), s.tokens, weights) }

  /** The step as the checkpoint defines it: concatenated head outputs through the output projection. */
  function ReferenceStep(d: Dims, w: Checkpoint, s: Step, n: int): real
  {
    Dot(d.nh * d.vd, Row(w.oProj, n),
        j => ValueOut(d, w, s, s.softmax(Scores(s, KeyScore(d, w, s, j / d.vd))), j / d.vd)(j % d.vd))
  }

  /** The step the prepared weights compute: concatenated latents through the folded projection. */
  function PreparedStep(d: Dims, w: Checkpoint, s: Step, n: int): real
  {
    Dot(d.nh * d.dk, Row(OFold(d, VAbsorb(d, w), w.oProj), n),
        j => LatentOut(s, s.softmax(Scores(s, LatentScore(d, w, s, j / d.dk))))(j % d.dk))
  }

  // --- by the checkpoint's own rows -----------------------------------------

  /** Row `l` of head `h` of the absorbed query: the head's key rows against its query rows. */
  lemma QAbsorbElement(d: Dims, w: Checkpoint, h: nat, l: nat, k: int, keys: Vector, queries: Vector)
    requires l < d.dk
    requires forall p :: 0 <= p < d.qn ==> keys(p) == w.kvB(h * (d.qn + d.vd) + p, l)
    requires forall p :: 0 <= p < d.qn ==> queries(p) == w.qB(h * (d.qn + d.dr) + p, k)
    ensures QAbsorb(d, w)(h * d.dk + l, k) == Dot(d.qn, keys, queries)
  {
    var row := h * d.dk + l;
    FlatIndex(h, d.dk, l);
    assert QAbsorb(d, w)(row, k) == Product(Transpose(KNope(d, w, h)), d.qn, QNope(d, w, h))(l, k);
    DotSame(d.qn, Row(Transpose(KNope(d, w, h)), l), Row(Transpose(QNope(d, w, h)), k), keys, queries);
  }

  /** The value tensor is the head's rows after the key rows, transposed. */
  lemma VAbsorbElement(d: Dims, w: Checkpoint, h: nat, l: nat, v: int)
    requires l < d.dk
    ensures VAbsorb(d, w)(h * d.dk + l, v) == w.kvB(h * (d.qn + d.vd) + d.qn + v, l)
  {
    var row := h * d.dk + l;
    FlatIndex(h, d.dk, l);
    assert VAbsorb(d, w)(row, v) == ValueW(d, w, h)(v, l);
  }

  /** Column `l` of head `h` of the folded projection: the head's columns of the projection against its value rows. */
  lemma OFoldElement(d: Dims, w: Checkpoint, n: int, h: nat, l: nat, outs: Vector, values: Vector)
    requires l < d.dk
    requires forall v :: 0 <= v < d.vd ==> outs(v) == w.oProj(n, h * d.vd + v)
    requires forall v :: 0 <= v < d.vd ==> values(v) == w.kvB(h * (d.qn + d.vd) + d.qn + v, l)
    ensures OFold(d, VAbsorb(d, w), w.oProj)(n, h * d.dk + l) == Dot(d.vd, outs, values)
  {
    var col := h * d.dk + l;
    FlatIndex(h, d.dk, l);
    forall v | 0 <= v < d.vd
      ensures Row(VAbsorb(d, w), col)(v) == values(v)
    {
      VAbsorbElement(d, w, h, l, v);
    }
    assert OFold(d, VAbsorb(d, w), w.oProj)(n, col)
        == Dot(d.vd, Tail(Row(w.oProj, n), h * d.vd), Row(VAbsorb(d, w), col));
    DotSame(d.vd, Tail(Row(w.oProj, n), h * d.vd), Row(VAbsorb(d, w), col), outs, values);
  }

  /** The reference's own score: its keys are the latent through the head's key rows, its queries the query latent
      through the head's query rows. */
  lemma KeyScoreElements(d: Dims, w: Checkpoint, s: Step, h: int, t: int,
                         keyRow: int -> Vector, queryRow: int -> Vector, key: Vector, query: Vector)
    requires forall p, l :: keyRow(p)(l) == w.kvB(h * (d.qn + d.vd) + p, l)
    requires forall p, k :: queryRow(p)(k) == w.qB(h * (d.qn + d.dr) + p, k)
    requires forall p :: key(p) == Dot(d.dk, keyRow(p), Row(s.latents, t))
    requires forall p :: query(p) == Dot(d.ql, queryRow(p), s.q)
    ensures KeyScore(d, w, s, h)(t) == Dot(d.qn, key, query) + s.rope(h, t)
  {
    forall p
      ensures Apply(KNope(d, w, h), d.dk, Row(s.latents, t))(p) == key(p)
      ensures Apply(QNope(d, w, h), d.ql, s.q)(p) == query(p)
    {
      DotSame(d.dk, Row(KNope(d, w, h), p), Row(s.latents, t), keyRow(p), Row(s.latents, t));
      DotSame(d.ql, Row(QNope(d, w, h), p), s.q, queryRow(p), s.q);
    }
    DotSame(d.qn, Apply(KNope(d, w, h), d.dk, Row(s.latents, t)), Apply(QNope(d, w, h), d.ql, s.q), key, query);
  }

  /** Its values are the latents through the head's value rows. */
  lemma ValueOutElements(d: Dims, w: Checkpoint, s: Step, weights: Vector, h: int, v: int, valueRow: Vector,
                         values: Vector)
    requires forall l :: valueRow(l) == w.kvB(h * (d.qn + d.vd) + d.qn + v, l)
    requires forall t :: values(t) == Dot(d.dk, valueRow, Row(s.latents, t))
    ensures ValueOut(d, w, s, weights, h)(v) == Dot(s.tokens, weights, values)
  {
    var u := Row(ValueW(d, w, h), v);
    forall t
      ensures Apply(ValueW(d, w, h), d.dk, Row(s.latents, t))(v) == values(t)
    {
      forall l
        ensures u(l) == valueRow(l)
      {
      }
      DotSame(d.dk, u, Row(s.latents, t), valueRow, Row(s.latents, t));
    }
    DotSame(s.tokens, weights, t => Apply(ValueW(d, w, h), d.dk, Row(s.latents, t))(v), weights, values);
  }

  // --- they agree ---------------------------------------------------------

  /** (k_nope c) . (q_nope q) == c . (absorbed q), head by head. */
  lemma AbsorbedScore(d: Dims, w: Checkpoint, s: Step, h: nat, t: int)
    ensures LatentScore(d, w, s, h)(t) == KeyScore(d, w, s, h)(t)
  {
    var c, kn, qn := Row(s.latents, t), KNope(d, w, h), QNope(d, w, h);
    var query := Apply(qn, d.ql, s.q);
    DotCommutes(d.qn, Apply(kn, d.dk, c), query);
    Adjoint(d.qn, d.dk, kn, c, query);
    var absorbed := Tail(Apply(QAbsorb(d, w), d.ql, s.q), h * d.dk);
    forall l | 0 <= l < d.dk
      ensures absorbed(l) == Apply(Transpose(kn), d.qn, query)(l)
    {
      FlatIndex(h, d.dk, l);
      ApplyProduct(Transpose(kn), d.qn, qn, d.ql, s.q, l);
      DotSame(d.ql, Row(QAbsorb(d, w), h * d.dk + l), s.q, Row(Product(Transpose(kn), d.qn, qn), l), s.q);
    }
    DotSame(d.dk, c, absorbed, c, Apply(Transpose(kn), d.qn, query));
  }

  lemma SameScores(d: Dims, w: Checkpoint, s: Step, h: nat)
    ensures Scores(s, LatentScore(d, w, s, h)) == Scores(s, KeyScore(d, w, s, h))
  {
    forall t | 0 <= t < s.tokens
      ensures LatentScore(d, w, s, h)(t) == KeyScore(d, w, s, h)(t)
    {
      AbsorbedScore(d, w, s, h, t);
    }
  }

  /** Projecting the attended latent is attending over projected latents. */
  lemma ValueOfLatent(d: Dims, w: Checkpoint, s: Step, weights: Vector, h: int, v: int)
    ensures Apply(ValueW(d, w, h), d.dk, LatentOut(s, weights))(v) == ValueOut(d, w, s, weights, h)(v)
  {
    var u := Row(ValueW(d, w, h), v);
    Adjoint(d.dk, s.tokens, Transpose(s.latents), weights, u);
    forall t
      ensures Apply(Transpose(Transpose(s.latents)), d.dk, u)(t) == Apply(ValueW(d, w, h), d.dk, Row(s.latents, t))(v)
    {
      DotSame(d.dk, Row(Transpose(Transpose(s.latents)), t), u, Row(s.latents, t), u);
      DotCommutes(d.dk, Row(s.latents, t), u);
    }
    DotSame(s.tokens, weights, Apply(Transpose(Transpose(s.latents)), d.dk, u),
            weights, t => Apply(ValueW(d, w, h), d.dk, Row(s.latents, t))(v));
  }

  /** One head's columns of the folded projection against its latent: the projection against its values. */
  lemma FoldedBlock(d: Dims, w: Checkpoint, n: int, h: nat, latent: Vector)
    ensures Dot(d.dk, Tail(Row(OFold(d, VAbsorb(d, w), w.oProj), n), h * d.dk), latent) ==
            Dot(d.vd, Tail(Row(w.oProj, n), h * d.vd), Apply(ValueW(d, w, h), d.dk, latent))
  {
    var y := Tail(Row(w.oProj, n), h * d.vd);
    var block := Tail(Row(OFold(d, VAbsorb(d, w), w.oProj), n), h * d.dk);
    var va := ValueW(d, w, h);
    Adjoint(d.vd, d.dk, va, latent, y);
    forall l | 0 <= l < d.dk
      ensures block(l) == Apply(Transpose(va), d.vd, y)(l)
    {
      FlatIndex(h, d.dk, l);
      DotSame(d.vd, y, Row(VAbsorb(d, w), h * d.dk + l), y, Row(Transpose(va), l));
      DotCommutes(d.vd, y, Row(Transpose(va), l));
    }
    DotCommutes(d.dk, block, latent);
    DotSame(d.dk, latent, block, latent, Apply(Transpose(va), d.vd, y));
  }

  /** For every head count and width, the prepared weights compute the checkpoint's decode step. */
  lemma PreparedIsReference(d: Dims, w: Checkpoint, s: Step, n: int)
    ensures PreparedStep(d, w, s, n) == ReferenceStep(d, w, s, n)
  {
    var x, y := Row(OFold(d, VAbsorb(d, w), w.oProj), n),
                j => LatentOut(s, s.softmax(Scores(s, LatentScore(d, w, s, j / d.dk))))(j % d.dk);
    var x2, y2 := Row(w.oProj, n),
                  j => ValueOut(d, w, s, s.softmax(Scores(s, KeyScore(d, w, s, j / d.vd))), j / d.vd)(j % d.vd);
    forall h | 0 <= h < d.nh
      ensures Dot(d.dk, Tail(x, h * d.dk), Tail(y, h * d.dk)) == Dot(d.vd, Tail(x2, h * d.vd), Tail(y2, h * d.vd))
    {
      SameScores(d, w, s, h);
      var weights := s.softmax(Scores(s, KeyScore(d, w, s, h)));
      var latent := LatentOut(s, weights);
      forall l | 0 <= l < d.dk
        ensures Tail(y, h * d.dk)(l) == latent(l)
      {
        FlatIndex(h, d.dk, l);
      }
      DotSame(d.dk, Tail(x, h * d.dk), Tail(y, h * d.dk), Tail(x, h * d.dk), latent);
      FoldedBlock(d, w, n, h, latent);
      forall v | 0 <= v < d.vd
        ensures Apply(ValueW(d, w, h), d.dk, latent)(v) == Tail(y2, h * d.vd)(v)
      {
        FlatIndex(h, d.vd, v);
        ValueOfLatent(d, w, s, weights, h, v);
      }
      DotSame(d.vd, Tail(x2, h * d.vd), Apply(ValueW(d, w, h), d.dk, latent), Tail(x2, h * d.vd), Tail(y2, h * d.vd));
    }
    DotInBlocks(d.nh, d.dk, x, y);
    DotInBlocks(d.nh, d.vd, x2, y2);
    BlocksSame(d.nh, d.dk, x, y, d.vd, x2, y2);
  }
}
