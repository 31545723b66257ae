/**
  `kimi_k3_prep.py` and `gemma4_fp8_hub_rekey.py`: conversions between f32 and bf16 bit patterns.

  Patterns are integers.  Values are scaled by 2^149, the reciprocal of the smallest f32, so that every
  value is an integer; the infinity patterns stand for 2^128, the value the next exponent would give,
  which is how round-to-nearest decides overflow (section 4.3.1 of IEEE 754-2019).
 */
module Bf16 {
  import opened Common

  type Bits16 = u: int | 0 <= u < 0x1_0000
  type Bits32 = u: int | 0 <= u < 0x1_0000_0000

  const SIGN := 0x8000_0000
  const INFINITY := 0x7F80_0000
  const IMPLICIT := 0x80_0000

  predicate Negative(u: Bits32) { u >= SIGN }

  /** The pattern without its sign bit. */
  function Unsigned(u: Bits32): nat { if u >= SIGN then u - SIGN else u }

  predicate IsNaN(u: Bits32) { Unsigned(u) > INFINITY }

  /** x * 2^n */
  function Shift(x: nat, n: nat): nat {
    if n == 0 then x else 2 * Shift(x, n - 1)
  }

  /**
    The scaled value of the unsigned pattern `m`: subnormals and the first binade are their own pattern, and
    one more in the exponent field doubles the value.
   */
  function Magnitude(m: nat): nat {
    if m < 2 * IMPLICIT then m else 2 * Magnitude(m - IMPLICIT)
  }

  /** How many doublings `Magnitude` makes. */
  function Exponent(m: nat): nat {
    if m < 2 * IMPLICIT then 0 else 1 + Exponent(m - IMPLICIT)
  }

  function Value(u: Bits32): int {
    var m: int := Magnitude(Unsigned(u));
    if Negative(u) then -m else m
  }

  // --- the conversions ----------------------------------------------------

  function Widen(h: Bits16): Bits32 { h * 0x1_0000 }

  /** One element of `f32_to_bf16`: a 32-bit add, a shift, and the NaN override. */
  function Narrow(u: Bits32): Bits16 {
    var bias := 0x7FFF + u / 0x1_0000 % 2;
    if IsNaN(u) then 0x7FC0 else ((u as int) + bias) % 0x1_0000_0000 / 0x1_0000
  }

  method F32ToBf16(f: seq<Bits32>) returns (out: array<Bits16>)
    ensures fresh(out) && out.Length == |f|
    ensures forall i :: 0 <= i < |f| ==> out[i] == Narrow(f[i])
  {
    out := new Bits16[|f|];
    for i := 0 to |f|
      invariant forall k :: 0 <= k < i ==> !IsNaN(f[k]) ==> out[k] == Narrow(f[k])
    {
      var bias := 0x7FFF + f[i] / 0x1_0000 % 2;
      out[i] := ((f[i] as int) + bias) % 0x1_0000_0000 / 0x1_0000;
    }
    for i := 0 to |f|
      invariant forall k :: 0 <= k < |f| ==> (k < i || !IsNaN(f[k])) ==> out[k] == Narrow(f[k])
    {
      if IsNaN(f[i]) {
        out[i] := 0x7FC0;
      }
    }
  }

  // --- values of patterns -------------------------------------------------

  lemma {:induction false} ShiftAdd(x: nat, y: nat, n: nat)
    ensures Shift(x + y, n) == Shift(x, n) + Shift(y, n)
  {
    if n > 0 {
      ShiftAdd(x, y, n - 1);
    }
  }

  lemma {:induction false} ShiftOrder(x: nat, y: nat, n: nat)
    ensures x < y <==> Shift(x, n) < Shift(y, n)
  {
    if n > 0 {
      ShiftOrder(x, y, n - 1);
    }
  }

  /** The textbook form: a significand with its implicit bit, times a power of two. */
  lemma {:induction false} MagnitudeIsSignificandTimesPower(m: nat)
    ensures Magnitude(m) == Shift(if m < IMPLICIT then m else IMPLICIT + m % IMPLICIT, Exponent(m))
    ensures Exponent(m) == if m < IMPLICIT then 0 else m / IMPLICIT - 1
  {
    if m >= 2 * IMPLICIT {
      MagnitudeIsSignificandTimesPower(m - IMPLICIT);
    }
  }

  lemma {:induction false} MagnitudeNext(m: nat)
    ensures Magnitude(m) < Magnitude(m + 1)
  {
    if m >= 2 * IMPLICIT {
      MagnitudeNext(m - IMPLICIT);
    }
  }

  /** Larger unsigned pattern, larger value. */
  lemma {:induction false} MagnitudeIncreasing(a: nat, b: nat)
    requires a < b
    ensures Magnitude(a) < Magnitude(b)
    decreases b
  {
    MagnitudeNext(b - 1);
    if a < b - 1 {
      MagnitudeIncreasing(a, b - 1);
    }
  }

  lemma MagnitudeOrder(a: nat, b: nat)
    ensures Magnitude(a) <= Magnitude(b) <==> a <= b
  {
    if a < b {
      MagnitudeIncreasing(a, b);
    } else if b < a {
      MagnitudeIncreasing(b, a);
    }
  }

  /** The value of an unsigned bf16 pattern. */
  function Magnitude16(h: nat): nat { Magnitude(h * 0x1_0000) }

  /** Between two neighbouring bf16 values the f32 values are evenly spaced. */
  lemma {:induction false} EvenlySpaced(h: nat, d: nat)
    requires d <= 0x1_0000
    ensures Magnitude(h * 0x1_0000 + d) == Magnitude16(h) + Shift(d, Exponent(h * 0x1_0000))
  {
    if h >= 0x100 {
      EvenlySpaced(h - 0x80, d);
    }
  }

  // --- rounding -----------------------------------------------------------

  function Abs(x: int): nat { if x < 0 then -x else x }

  function Distance(h: Bits16, u: Bits32): nat { Abs(Value(Widen(h)) - Value(u)) }

  /** `out` is a nearest bf16 value to `u`, of `u`'s sign, and an even pattern if another value is as near. */
  ghost predicate NearestEven(out: Bits16, u: Bits32) {
    && !IsNaN(Widen(out))
    && (Negative(Widen(out)) <==> Negative(u))
    && forall h: Bits16 :: !IsNaN(Widen(h)) ==>
         && Distance(out, u) <= Distance(h, u)
         && (Distance(h, u) == Distance(out, u) && Value(Widen(h)) != Value(Widen(out)) ==> out % 2 == 0)
  }

  /** The unsigned half of `Narrow`: up exactly when past the midpoint, or on it from an odd pattern. */
  function Rounded(h: nat, d: nat): nat {
    if d > 0x8000 || (d == 0x8000 && h % 2 == 1) then h + 1 else h
  }

  /** The unsigned upper half of a pattern, and its lower half. */
  function High(u: Bits32): nat { Unsigned(u) / 0x1_0000 }

  function Low(u: Bits32): nat { u % 0x1_0000 }

  lemma Halves(u: Bits32)
    ensures Unsigned(u) == High(u) * 0x1_0000 + Low(u)
    ensures u / 0x1_0000 == High(u) + if Negative(u) then 0x8000 else 0
  {
  }

  lemma NarrowSplits(u: Bits32)
    requires !IsNaN(u)
    ensures u + 0x7FFF + u / 0x1_0000 % 2 < 0x1_0000_0000
    ensures Rounded(High(u), Low(u)) <= 0x7F80
    ensures Narrow(u) == (if Negative(u) then 0x8000 else 0) + Rounded(High(u), Low(u))
  {
    Halves(u);
    var h, d := u / 0x1_0000, Low(u);
    assert h % 2 == High(u) % 2;
    var w := u + 0x7FFF + h % 2;
    assert w == h * 0x1_0000 + (d + 0x7FFF + h % 2);
    if d + 0x7FFF + h % 2 < 0x1_0000 {
      assert w / 0x1_0000 == h;
    } else {
      assert w / 0x1_0000 == h + 1;
    }
  }

  /** What it takes to be nearest, on plain numbers: `x` is `d` of 2^16 equal steps from `lo` to `hi`. */
  lemma NearestOnLine(lo: int, x: int, hi: int, e: nat, d: nat, y: int)
    requires d < 0x1_0000
    requires x == lo + Shift(d, e) && hi == lo + Shift(0x1_0000, e)
    requires y <= lo || hi <= y
    ensures d < 0x8000 ==> Abs(lo - x) <= Abs(y - x) && (y != lo ==> Abs(lo - x) < Abs(y - x))
    ensures d > 0x8000 ==> Abs(hi - x) <= Abs(y - x) && (y != hi ==> Abs(hi - x) < Abs(y - x))
    ensures d == 0x8000 ==> Abs(lo - x) == Abs(hi - x) <= Abs(y - x)
    ensures d == 0x8000 && y != lo && y != hi ==> Abs(lo - x) < Abs(y - x)
  {
    ShiftAdd(d, 0x1_0000 - d, e);
    ShiftOrder(d, 0x1_0000 - d, e);
    ShiftOrder(0x1_0000 - d, d, e);
    assert hi - x == Shift(0x1_0000 - d, e);
  }

  /** No bf16 value lies strictly between two neighbours, and each other one lies strictly outside. */
  lemma OutsideNeighbours(h: nat, k: nat)
    ensures Magnitude16(k) <= Magnitude16(h) || Magnitude16(h + 1) <= Magnitude16(k)
    ensures Magnitude16(k) == Magnitude16(h) ==> k == h
    ensures Magnitude16(k) == Magnitude16(h + 1) ==> k == h + 1
  {
    Order16(k, h);
    Order16(k, h + 1);
  }

  /** On unsigned patterns no bf16 value is nearer, and an equally near other one means an even result. */
  lemma NearestUnsigned(h: nat, d: nat, k: nat)
    requires d < 0x1_0000
    ensures var x := Magnitude(h * 0x1_0000 + d);
            var best, other := Abs(Magnitude16(Rounded(h, d)) - x), Abs(Magnitude16(k) - x);
            best <= other && (best == other && k != Rounded(h, d) ==> Rounded(h, d) % 2 == 0)
  {
    EvenlySpaced(h, d);
    EvenlySpaced(h, 0x1_0000);
    OutsideNeighbours(h, k);
    NearestOnLine(Magnitude16(h), Magnitude(h * 0x1_0000 + d), Magnitude16(h + 1), Exponent(h * 0x1_0000), d,
                  Magnitude16(k));
  }

  lemma Order16(a: nat, b: nat)
    ensures a < b ==> Magnitude16(a) < Magnitude16(b)
    ensures a > b ==> Magnitude16(a) > Magnitude16(b)
  {
    MagnitudeOrder(a * 0x1_0000, b * 0x1_0000);
    MagnitudeOrder(b * 0x1_0000, a * 0x1_0000);
  }

  lemma ValueOfHalves(u: Bits32)
    ensures var m: int := Magnitude(High(u) * 0x1_0000 + Low(u)); Value(u) == if Negative(u) then -m else m
  {
    Halves(u);
  }

  lemma ZeroMagnitude()
    ensures Magnitude(0) == 0 && Magnitude16(0) == 0
  {
  }

  function Signed(negative: bool, magnitude: nat): int {
    if negative then -(magnitude as int) else magnitude
  }

  /** No bf16 value, of either sign, is nearer than the rounded one. */
  lemma NoneNearer(negative: bool, h: nat, d: nat, negative2: bool, k: nat)
    requires d < 0x1_0000
    ensures var x := Signed(negative, Magnitude(h * 0x1_0000 + d));
            var r := Signed(negative, Magnitude16(Rounded(h, d)));
            var y := Signed(negative2, Magnitude16(k));
            Abs(r - x) <= Abs(y - x) && (Abs(r - x) == Abs(y - x) && y != r ==> Rounded(h, d) % 2 == 0)
  {
    NearestUnsigned(h, d, k);
    NearestUnsigned(h, d, 0);
    ZeroMagnitude();
  }

  lemma NarrowedValue(u: Bits32)
    requires !IsNaN(u)
    ensures Value(Widen(Narrow(u))) == Signed(Negative(u), Magnitude16(Rounded(High(u), Low(u))))
    ensures Narrow(u) % 2 == Rounded(High(u), Low(u)) % 2
    ensures !IsNaN(Widen(Narrow(u))) && (Negative(Widen(Narrow(u))) <==> Negative(u))
  {
    NarrowSplits(u);
  }

  /** A pattern with the rounded value and parity beats every other pattern. */
  lemma RoundedBeats(u: Bits32, n: Bits16, p: Bits16)
    requires Value(Widen(n)) == Signed(Negative(u), Magnitude16(Rounded(High(u), Low(u))))
    requires n % 2 == Rounded(High(u), Low(u)) % 2
    ensures Distance(n, u) <= Distance(p, u)
    ensures Distance(p, u) == Distance(n, u) && Value(Widen(p)) != Value(Widen(n)) ==> n % 2 == 0
  {
    var h, d := High(u), Low(u);
    var k := if p >= 0x8000 then p - 0x8000 else p;
    assert Value(u) == Signed(Negative(u), Magnitude(h * 0x1_0000 + d)) by {
      ValueOfHalves(u);
    }
    assert Value(Widen(p)) == Signed(p >= 0x8000, Magnitude16(k)) by {
    }
    NoneNearer(Negative(u), h, d, p >= 0x8000, k);
  }

  /** `f32_to_bf16` is round-to-nearest, ties to even, on every f32 that is not a NaN. */
  lemma NarrowIsNearestEven(u: Bits32)
    requires !IsNaN(u)
    ensures NearestEven(Narrow(u), u)
  {
    NarrowedValue(u);
    var n := Narrow(u);
    forall p: Bits16
      ensures Distance(n, u) <= Distance(p, u)
      ensures Distance(p, u) == Distance(n, u) && Value(Widen(p)) != Value(Widen(n)) ==> n % 2 == 0
    {
      RoundedBeats(u, n, p);
    }
  }

  lemma ValuesInOrder(a: Bits16, b: Bits16)
    requires a < b && (a >= 0x8000 || b < 0x8000)
    ensures if a >= 0x8000 then Value(Widen(b)) < Value(Widen(a)) else Value(Widen(a)) < Value(Widen(b))
  {
    if a >= 0x8000 {
      Order16(a - 0x8000, b - 0x8000);
    } else {
      Order16(a, b);
    }
  }

  lemma NoTwoNearestEven(a: Bits16, b: Bits16, u: Bits32)
    requires a < b
    ensures !(NearestEven(a, u) && NearestEven(b, u))
  {
    if NearestEven(a, u) && NearestEven(b, u) {
      ValuesInOrder(a, b);
      assert Distance(a, u) == Distance(b, u) && a % 2 == b % 2 == 0;
      var mid: Bits16 := a + 1;
      assert Distance(a, u) <= Distance(mid, u);
      ValuesInOrder(a, mid);
      ValuesInOrder(mid, b);
    }
  }

  /** The specification leaves no choice. */
  lemma NearestEvenUnique(a: Bits16, b: Bits16, u: Bits32)
    requires NearestEven(a, u) && NearestEven(b, u)
    ensures a == b
  {
    if a < b {
      NoTwoNearestEven(a, b, u);
    } else if b < a {
      NoTwoNearestEven(b, a, u);
    }
  }

  /** The result is infinite exactly from the midpoint of the largest bf16 and 2^128 upwards. */
  lemma OverflowThreshold(u: Bits32)
    requires !IsNaN(u)
    ensures Narrow(u) % 0x8000 == 0x7F80 <==>
            2 * Abs(Value(u)) >= Magnitude16(0x7F7F) + Magnitude16(0x7F80)
  {
    NarrowSplits(u);
    ValueOfHalves(u);
    ThresholdUnsigned(0x7F7F, High(u), Low(u));
  }

  lemma ThresholdUnsigned(top: nat, h: nat, d: nat)
    requires d < 0x1_0000 && top % 2 == 1
    ensures Rounded(h, d) > top <==>
            2 * Magnitude(h * 0x1_0000 + d) >= Magnitude16(top) + Magnitude16(top + 1)
  {
    var e := Exponent(top * 0x1_0000);
    EvenlySpaced(top, 0x8000);
    EvenlySpaced(top, 0x1_0000);
    ShiftAdd(0x8000, 0x8000, e);
    MagnitudeOrder(top * 0x1_0000 + 0x8000, h * 0x1_0000 + d);
  }

  lemma RoundedMonotone(h: nat, d: nat, h2: nat, d2: nat)
    requires d < 0x1_0000 && d2 < 0x1_0000
    requires Magnitude(h * 0x1_0000 + d) <= Magnitude(h2 * 0x1_0000 + d2)
    ensures Magnitude16(Rounded(h, d)) <= Magnitude16(Rounded(h2, d2))
  {
    MagnitudeOrder(h * 0x1_0000 + d, h2 * 0x1_0000 + d2);
    Order16(Rounded(h2, d2), Rounded(h, d));
  }

  /** A larger value never narrows to a smaller one. */
  lemma NarrowMonotone(u: Bits32, v: Bits32)
    requires !IsNaN(u) && !IsNaN(v) && Value(u) <= Value(v)
    ensures Value(Widen(Narrow(u))) <= Value(Widen(Narrow(v)))
  {
    NarrowedValue(u);
    NarrowedValue(v);
    ValueOfHalves(u);
    ValueOfHalves(v);
    var h, d, h2, d2 := High(u), Low(u), High(v), Low(v);
    if Negative(u) && Negative(v) {
      RoundedMonotone(h2, d2, h, d);
    } else if !Negative(u) {
      RoundedMonotone(h, d, h2, d2);
      if Negative(v) {
        RoundedMonotone(h2, d2, 0, 0);
        RoundedMonotone(h, d, 0, 0);
        ZeroMagnitude();
      }
    }
  }

  /** Narrowing undoes widening, except that every NaN becomes the one quiet NaN. */
  lemma NarrowWiden(h: Bits16)
    ensures Narrow(Widen(h)) == if IsNaN(Widen(h)) then 0x7FC0 else h
  {
    if !IsNaN(Widen(h)) {
      NarrowSplits(Widen(h));
    }
  }

  // --- bytes --------------------------------------------------------------

  function Le16(b: seq<Byte>, i: nat): Bits16
    requires 2 * i + 1 < |b|
  {
    (b[2 * i] as int) + 0x100 * (b[2 * i + 1] as int)
  }

  function Le32(b: seq<Byte>, i: nat): Bits32
    requires 4 * i + 3 < |b|
  {
    (b[4 * i] as int) + 0x100 * (b[4 * i + 1] as int) +
    0x1_0000 * (b[4 * i + 2] as int) + 0x100_0000 * (b[4 * i + 3] as int)
  }

  /** The words read here are the bytes from 2i and from 4i on, lowest first. */
  lemma WordsAreLittleEndian(b: seq<Byte>, i: nat)
    ensures 2 * i + 1 < |b| ==> Le16(b, i) == FromLittleEndian(b[2 * i..2 * i + 2])
    ensures 4 * i + 3 < |b| ==> Le32(b, i) == FromLittleEndian(b[4 * i..4 * i + 4])
  {
    if 2 * i + 1 < |b| {
      PairValue(b[2 * i..2 * i + 2]);
    }
    if 4 * i + 3 < |b| {
      WordValue(b[4 * i..4 * i + 4]);
    }
  }

  lemma WordValue(w: seq<Byte>)
    requires |w| == 4
    ensures FromLittleEndian(w)
         == (w[0] as int) + 0x100 * (w[1] as int) + 0x1_0000 * (w[2] as int) + 0x100_0000 * (w[3] as int)
  {
    PairValue(w[2..]);
    assert w[1..][1..] == w[2..] && w[1..][0] == w[1] && w[2..][0] == w[2] && w[2..][1] == w[3];
    assert FromLittleEndian(w[1..]) == (w[1] as int) + 0x100 * FromLittleEndian(w[2..]);
  }

  lemma PairValue(w: seq<Byte>)
    requires |w| == 2
    ensures FromLittleEndian(w) == (w[0] as int) + 0x100 * (w[1] as int)
  {
    assert w[1..][1..] == [];
    assert FromLittleEndian(w[1..]) == w[1] as int;
  }

  /** Byte `j` of the widened buffer: two zero bytes, then the two bytes of the bf16. */
  function WidenedByte(b: seq<Byte>, j: nat): Byte
    requires |b| % 2 == 0 && j < 2 * |b|
  {
    if j % 4 == 2 then b[j / 4 * 2] else if j % 4 == 3 then b[j / 4 * 2 + 1] else 0
  }

  /** The byte-level widening: two strided copies into a zeroed buffer. */
  method WidenBytes(b: seq<Byte>) returns (out: array<Byte>)
    requires |b| % 2 == 0
    ensures fresh(out) && out.Length == 2 * |b|
    ensures forall j :: 0 <= j < out.Length ==> out[j] == WidenedByte(b, j)
  {
    out := new Byte[2 * |b|](_ => 0);
    for i := 0 to |b| / 2
      invariant forall j :: 0 <= j < out.Length ==> out[j] == if j % 4 == 2 && j < 4 * i then WidenedByte(b, j) else 0
    {
      out[4 * i + 2] := b[2 * i];
    }
    for i := 0 to |b| / 2
      invariant forall j :: 0 <= j < out.Length ==>
                  out[j] == if j % 4 == 2 || j < 4 * i then WidenedByte(b, j) else 0
    {
      out[4 * i + 3] := b[2 * i + 1];
    }
  }

  /** Read back as little-endian words, the widened bytes are the widened patterns. */
  lemma WidenedWords(b: seq<Byte>, out: seq<Byte>, i: nat)
    requires |b| % 2 == 0 && |out| == 2 * |b| && 2 * i < |b|
    requires forall j :: 0 <= j < |out| ==> out[j] == WidenedByte(b, j)
    ensures Le32(out, i) == Widen(Le16(b, i))
  {
    assert out[4 * i] == 0 && out[4 * i + 1] == 0 && out[4 * i + 2] == b[2 * i] && out[4 * i + 3] == b[2 * i + 1];
  }
}
