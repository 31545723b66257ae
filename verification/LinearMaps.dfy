/** Vectors and matrices of reals as functions of their indices, and the algebra of the maps they stand for. */
module LinearMaps {
  type Vector = int -> real
  type Matrix = (int, int) -> real

  function Dot(n: nat, x: Vector, y: Vector): real {
    if n == 0 then 0.0 else Dot(n - 1, x, y) + x(n - 1) * y(n - 1)
  }

  /** A product known to be no less than zero. */
  function Times(a: nat, b: nat): nat { a * b }

  lemma MulMonotone(a: nat, b: nat, c: nat)
    requires a <= b
    ensures a * c <= b * c
  {
  }

  function Row(w: Matrix, r: int): Vector { c => w(r, c) }

  function Transpose(w: Matrix): Matrix { (r, c) => w(c, r) }

  /** `w` with `n` columns applied to `x`. */
  function Apply(w: Matrix, n: nat, x: Vector): Vector { r => Dot(n, Row(w, r), x) }

  /** `a` with `n` columns times `b` with `n` rows. */
  function Product(a: Matrix, n: nat, b: Matrix): Matrix { (r, c) => Dot(n, Row(a, r), Row(Transpose(b), c)) }

  /** `x` from index `o` on. */
  function Tail(x: Vector, o: int): Vector { i => x(o + i) }

  lemma {:induction false} DotSame(n: nat, x: Vector, y: Vector, x2: Vector, y2: Vector)
    requires forall i :: 0 <= i < n ==> x(i) == x2(i) && y(i) == y2(i)
    ensures Dot(n, x, y) == Dot(n, x2, y2)
  {
    if n > 0 {
      DotSame(n - 1, x, y, x2, y2);
    }
  }

  /** Against a unit vector a dot product is one component. */
  lemma {:induction false} DotUnit(n: nat, i: nat, x: Vector, y: Vector)
    requires forall j :: 0 <= j < n ==> x(j) == if j == i then 1.0 else 0.0
    ensures Dot(n, x, y) == if i < n then y(i) else 0.0
  {
    if n > 0 {
      DotUnit(n - 1, i, x, y);
    }
  }

  lemma {:induction false} DotCommutes(n: nat, x: Vector, y: Vector)
    ensures Dot(n, x, y) == Dot(n, y, x)
  {
    if n > 0 {
      DotCommutes(n - 1, x, y);
    }
  }

  /** Linearity in the second argument, for `z` = `y` + `a` * `x`. */
  lemma {:induction false} DotLinear(n: nat, u: Vector, y: Vector, a: real, x: Vector, z: Vector)
    requires forall i :: 0 <= i < n ==> z(i) == y(i) + a * x(i)
    ensures Dot(n, u, z) == Dot(n, u, y) + a * Dot(n, u, x)
  {
    if n > 0 {
      DotLinear(n - 1, u, y, a, x, z);
      var p, q, r, s := u(n - 1), y(n - 1), x(n - 1), Dot(n - 1, u, x);
      assert p * (q + a * r) == p * q + a * (p * r);
      assert a * (s + p * r) == a * s + a * (p * r);
    }
  }

  lemma {:induction false} DotZero(n: nat, u: Vector, z: Vector)
    requires forall i :: 0 <= i < n ==> z(i) == 0.0
    ensures Dot(n, u, z) == 0.0
  {
    if n > 0 {
      DotZero(n - 1, u, z);
    }
  }

  /** Sum exchange: a matrix moves across a dot product by transposing. */
  lemma {:induction false} Adjoint(m: nat, n: nat, w: Matrix, x: Vector, y: Vector)
    ensures Dot(m, y, Apply(w, n, x)) == Dot(n, x, Apply(Transpose(w), m, y))
  {
    if m == 0 {
      DotZero(n, x, Apply(Transpose(w), 0, y));
    } else {
      Adjoint(m - 1, n, w, x, y);
      AddRow(m - 1, n, w, x, y);
    }
  }

  /** One more row of the matrix adds its own product. */
  lemma AddRow(m: nat, n: nat, w: Matrix, x: Vector, y: Vector)
    ensures Dot(n, x, Apply(Transpose(w), m + 1, y)) ==
            Dot(n, x, Apply(Transpose(w), m, y)) + y(m) * Dot(n, Row(w, m), x)
  {
    DotLinear(n, x, Apply(Transpose(w), m, y), y(m), Row(w, m), Apply(Transpose(w), m + 1, y));
    DotCommutes(n, x, Row(w, m));
  }

  /** Applying a product is applying its factors in turn. */
  lemma ApplyProduct(a: Matrix, n: nat, b: Matrix, k: nat, x: Vector, r: int)
    ensures Apply(Product(a, n, b), k, x)(r) == Apply(a, n, Apply(b, k, x))(r)
  {
    // Row r of the product is the transpose of b applied to row r of a.
    var u := Row(a, r);
    Adjoint(n, k, b, x, u);
    forall c
      ensures Row(Product(a, n, b), r)(c) == Apply(Transpose(b), n, u)(c)
    {
      DotCommutes(n, u, Row(Transpose(b), c));
    }
    DotSame(k, x, Row(Product(a, n, b), r), x, Apply(Transpose(b), n, u));
    DotCommutes(k, x, Row(Product(a, n, b), r));
  }

  lemma {:induction false} DotConcat(m: nat, n: nat, x: Vector, y: Vector)
    ensures Dot(m + n, x, y) == Dot(m, x, y) + Dot(n, Tail(x, m), Tail(y, m))
  {
    if n > 0 {
      DotConcat(m, n - 1, x, y);
    }
  }

  /** A dot product over `k` blocks of `n` is the sum of the blocks' dot products. */
  function BlockDots(k: nat, n: nat, x: Vector, y: Vector): real {
    if k == 0 then 0.0 else BlockDots(k - 1, n, x, y) + Dot(n, Tail(x, (k - 1) * n), Tail(y, (k - 1) * n))
  }

  lemma {:induction false} DotInBlocks(k: nat, n: nat, x: Vector, y: Vector)
    ensures k * n >= 0 && Dot(k * n, x, y) == BlockDots(k, n, x, y)
  {
    if k > 0 {
      DotInBlocks(k - 1, n, x, y);
      assert k * n == (k - 1) * n + n;
      DotConcat((k - 1) * n, n, x, y);
    }
  }

  /** Blockwise equal dot products add up to equal ones, even for blocks of different widths. */
  lemma {:induction false} BlocksSame(k: nat, n: nat, x: Vector, y: Vector, n2: nat, x2: Vector, y2: Vector)
    requires forall b :: 0 <= b < k ==>
               Dot(n, Tail(x, b * n), Tail(y, b * n)) == Dot(n2, Tail(x2, b * n2), Tail(y2, b * n2))
    ensures BlockDots(k, n, x, y) == BlockDots(k, n2, x2, y2)
  {
    if k > 0 {
      BlocksSame(k - 1, n, x, y, n2, x2, y2);
    }
  }

  lemma MulAtLeast(a: int, n: nat)
    requires a >= 1
    ensures a * n >= n
  {
    if a > 1 {
      MulAtLeast(a - 1, n);
      assert a * n == (a - 1) * n + n;
    }
  }

  /** Quotient and remainder are unique. */
  lemma FlatUnique(q: int, r: int, q2: int, r2: int, n: nat)
    requires 0 <= r < n && 0 <= r2 < n && q * n + r == q2 * n + r2
    ensures q == q2 && r == r2
  {
    assert (q2 - q) * n == r - r2 && (q - q2) * n == r2 - r;
    if q < q2 {
      MulAtLeast(q2 - q, n);
    } else if q > q2 {
      MulAtLeast(q - q2, n);
    }
  }

  /** Column `b * n + i` of a flattened axis is (`b`, `i`). */
  lemma FlatIndex(b: nat, n: nat, i: nat)
    requires i < n
    ensures b * n + i >= 0 && (b * n + i) / n == b && (b * n + i) % n == i
  {
    var k := b * n + i;
    assert k / n * n + k % n == k;
    FlatUnique(k / n, k % n, b, i, n);
  }
}
