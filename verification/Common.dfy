/** Types shared by the other modules. */
module Common {
  datatype Option<+T> = None | Some(value: T)

  datatype Result<+T> = Success(value: T) | Failure(error: string)

  type Byte = b: int | 0 <= b < 256

  type Bytes = seq<Byte>

  /** b[i:j], cut off at the end. */
  function Slice(b: Bytes, i: nat, j: nat): Bytes {
    if j <= i || |b| <= i then [] else if |b| < j then b[i..] else b[i..j]
  }

  lemma Associative<X>(a: seq<X>, b: seq<X>, c: seq<X>)
    ensures a + (b + c) == (a + b) + c
  {
  }

  function FromLittleEndian(b: Bytes): nat {
    if b == [] then 0 else (b[0] as int) + 256 * FromLittleEndian(b[1..])
  }

  function Abs(x: real): real { if x < 0.0 then -x else x }

  ghost predicate Distinct<T>(s: seq<T>) {
    forall i, j :: 0 <= i < j < |s| ==> s[i] != s[j]
  }

  // --- counting -----------------------------------------------------------

  lemma {:induction false} DistinctCount<T>(s: seq<T>, n: nat)
    requires n <= |s| && Distinct(s)
    ensures |set k | 0 <= k < n :: s[k]| == n
  {
    if n > 0 {
      DistinctCount(s, n - 1);
      assert (set k | 0 <= k < n :: s[k]) == (set k | 0 <= k < n - 1 :: s[k]) + {s[n - 1]};
    }
  }

  lemma SubsetOfSameSize<T>(a: set<T>, b: set<T>)
    requires a <= b && |a| == |b|
    ensures a == b
  {
    assert |b - a| == 0;
  }

  /** In a list without repetition every element counts once. */
  lemma {:induction false} DistinctMultiplicity<T>(s: seq<T>, x: T)
    requires Distinct(s)
    ensures multiset(s)[x] <= 1
  {
    if s != [] {
      var last := |s| - 1;
      assert s == s[..last] + [s[last]];
      DistinctMultiplicity(s[..last], x);
      if x == s[last] {
        assert x !in s[..last];
      }
    }
  }

  lemma RepeatMultiplicity<T>(s: seq<T>, i: nat, j: nat)
    requires i < j < |s| && s[i] == s[j]
    ensures multiset(s)[s[i]] >= 2
  {
    assert s == s[..j] + [s[j]] + s[j + 1..];
    assert s[i] in s[..j];
  }

  // --- decimal numerals ---------------------------------------------------

  function Decimal(n: nat): (s: string)
    ensures |s| >= 1
  {
    if n < 10 then [('0' as int + n) as char] else Decimal(n / 10) + [('0' as int + n % 10) as char]
  }

  lemma {:induction false} DecimalInjective(a: nat, b: nat)
    requires Decimal(a) == Decimal(b)
    ensures a == b
  {
    var s := Decimal(a);
    var d := s[|s| - 1] as int - '0' as int;
    assert d == a % 10 == b % 10;
    if a >= 10 && b >= 10 {
      assert Decimal(a / 10) == s[..|s| - 1] == Decimal(b / 10);
      DecimalInjective(a / 10, b / 10);
    }
  }
}
