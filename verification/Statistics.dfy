/** The order statistics of `ledger_append.py` and `gemma4_h100_kernel_tuner.py`. */
module Statistics {
  import opened Common

  ghost predicate Ascending(s: seq<real>) {
    forall i, j :: 0 <= i < j < |s| ==> s[i] <= s[j]
  }

  function Insert(x: real, s: seq<real>): seq<real> {
    if s == [] then [x] else if x <= s[0] then [x] + s else [s[0]] + Insert(x, s[1..])
  }

  function Sort(s: seq<real>): seq<real> {
    if s == [] then [] else Insert(s[0], Sort(s[1..]))
  }

  lemma {:induction false} InsertAdds(x: real, s: seq<real>)
    ensures multiset(Insert(x, s)) == multiset(s) + multiset{x}
    ensures forall y :: y in Insert(x, s) <==> y == x || y in s
  {
    if s != [] {
      assert s == [s[0]] + s[1..];
      if x > s[0] {
        InsertAdds(x, s[1..]);
      }
    }
  }

  lemma {:induction false} InsertKeepsOrder(x: real, s: seq<real>)
    requires Ascending(s)
    ensures Ascending(Insert(x, s))
  {
    if s != [] && x > s[0] {
      InsertKeepsOrder(x, s[1..]);
      InsertAdds(x, s[1..]);
      var rest := Insert(x, s[1..]);
      forall j | 0 <= j < |rest|
        ensures s[0] <= rest[j]
      {
        assert rest[j] in rest;
      }
    }
  }

  lemma {:induction false} SortOrders(s: seq<real>)
    ensures Ascending(Sort(s)) && multiset(Sort(s)) == multiset(s) && |Sort(s)| == |s|
  {
    if s != [] {
      SortOrders(s[1..]);
      InsertKeepsOrder(s[0], Sort(s[1..]));
      InsertAdds(s[0], Sort(s[1..]));
      assert s == [s[0]] + s[1..];
      assert |multiset(Sort(s))| == |multiset(s)|;
    }
  }

  /** The middle value, or the mean of the two middle ones. */
  function Middle(xs: seq<real>): real
    requires xs != []
  {
    var n := |xs|;
    if n % 2 == 1 then xs[n / 2] else (xs[n / 2 - 1] + xs[n / 2]) / 2.0
  }

  function Median(s: seq<real>): real
    requires s != []
  {
    SortOrders(s);
    Middle(Sort(s))
  }

  lemma SortedIn(s: seq<real>, i: nat)
    requires i < |s|
    ensures |Sort(s)| == |s| && Sort(s)[i] in s
  {
    SortOrders(s);
    assert Sort(s)[i] in multiset(Sort(s));
  }

  lemma MedianPositive(s: seq<real>)
    requires s != [] && forall x :: x in s ==> x > 0.0
    ensures Median(s) > 0.0
  {
    var n := |s|;
    SortedIn(s, n / 2);
    if n % 2 == 0 {
      SortedIn(s, n / 2 - 1);
    }
  }

  function Deviations(s: seq<real>, center: real): seq<real> {
    seq(|s|, i requires 0 <= i < |s| => Abs(s[i] - center))
  }

  /** Median absolute deviation from the median. */
  function Mad(s: seq<real>): real
    requires s != []
  {
    Median(Deviations(s, Median(s)))
  }

  /** Nearest integer to 95n/100, ties to even. */
  function Round95(n: nat): nat {
    var q, r := 95 * n / 100, 95 * n % 100;
    if r > 50 || (r == 50 && q % 2 == 1) then q + 1 else q
  }

  datatype Stats = Stats(n: nat, median: real, mad: real, p95: real)

  /** Where the 95th percentile is read off: never below the middle. */
  function RankOf95(n: nat): (i: nat)
    requires n > 0
    ensures n / 2 <= i < n
  {
    var r := Round95(n);
    if r == 0 then 0 else r - 1
  }

  function StatsOf(samples: seq<real>): Stats
    requires samples != []
  {
    SortOrders(samples);
    Stats(|samples|, Median(samples), Mad(samples), Sort(samples)[RankOf95(|samples|)])
  }

  /** The deviation is never negative, and the 95th percentile is a sample no smaller than the median. */
  lemma StatsSane(samples: seq<real>)
    requires samples != []
    ensures var st := StatsOf(samples);
            st.mad >= 0.0 && st.p95 in samples && st.median <= st.p95
  {
    MadNonNegative(Deviations(samples, Median(samples)));
    SortedIn(samples, RankOf95(|samples|));
    MedianBelow(samples, RankOf95(|samples|));
  }

  lemma MedianBelow(s: seq<real>, i: nat)
    requires |s| / 2 <= i < |s|
    ensures |Sort(s)| == |s| && Median(s) <= Sort(s)[i]
  {
    SortOrders(s);
    MiddleBelow(Sort(s), i);
  }

  lemma MiddleBelow(xs: seq<real>, i: nat)
    requires |xs| / 2 <= i < |xs| && Ascending(xs)
    ensures Middle(xs) <= xs[i]
  {
    var h := |xs| / 2;
    assert xs[h] <= xs[i];
    assert |xs| % 2 == 0 ==> xs[h - 1] <= xs[h];
  }

  lemma MadNonNegative(d: seq<real>)
    requires d != [] && forall i :: 0 <= i < |d| ==> d[i] >= 0.0
    ensures Median(d) >= 0.0
  {
    var n := |d|;
    SortedIn(d, n / 2);
    if n % 2 == 0 {
      SortedIn(d, n / 2 - 1);
    }
  }

  // --- what the statistics are, from any ordered listing --------------------

  ghost predicate Listing(s: seq<real>, t: seq<real>) {
    Ascending(t) && multiset(t) == multiset(s)
  }

  lemma ListingLength(s: seq<real>, t: seq<real>)
    requires multiset(s) == multiset(t)
    ensures |s| == |t|
  {
    assert |multiset(s)| == |multiset(t)|;
  }

  lemma {:induction false} ListingUnique(s: seq<real>, t: seq<real>)
    requires Ascending(s) && Ascending(t) && multiset(s) == multiset(t)
    ensures s == t
  {
    ListingLength(s, t);
    if s != [] {
      LeastFirst(s, t[0]);
      LeastFirst(t, s[0]);
      TailsAgree(s, t);
      ListingUnique(s[1..], t[1..]);
      assert s == [s[0]] + s[1..] && t == [t[0]] + t[1..];
    }
  }

  lemma LeastFirst(s: seq<real>, x: real)
    requires Ascending(s) && s != []
    ensures x in multiset(s) ==> s[0] <= x
    ensures s[0] in multiset(s)
  {
  }

  lemma TailsAgree(s: seq<real>, t: seq<real>)
    requires s != [] && t != [] && s[0] == t[0] && multiset(s) == multiset(t)
    ensures multiset(s[1..]) == multiset(t[1..])
  {
    assert s == [s[0]] + s[1..] && t == [t[0]] + t[1..];
    assert multiset(s[1..]) == multiset(s) - multiset{s[0]};
    assert multiset(t[1..]) == multiset(t) - multiset{t[0]};
  }

  /** Twice `m` is the sum of the two entries next to the middle: one entry twice when the count is odd. */
  predicate Halfway(t: seq<real>, m: real) {
    t != [] && m + m == t[(|t| - 1) / 2] + t[|t| / 2]
  }

  /** `m` is halfway through the samples in order. */
  ghost predicate IsMedian(s: seq<real>, m: real) {
    exists t :: Listing(s, t) && Halfway(t, m)
  }

  lemma HalfwayIff(t: seq<real>, m: real)
    requires t != []
    ensures Halfway(t, m) <==> m == Middle(t)
  {
    var n := |t|;
    if n % 2 == 1 {
      assert (n - 1) / 2 == n / 2;
    } else {
      assert (n - 1) / 2 == n / 2 - 1;
    }
  }

  lemma SortLists(s: seq<real>, t: seq<real>)
    ensures Listing(s, t) <==> t == Sort(s)
  {
    SortOrders(s);
    if Listing(s, t) {
      ListingUnique(t, Sort(s));
    }
  }

  /** The median is the middle of the samples in order, and nothing else is. */
  lemma MedianIff(s: seq<real>, m: real)
    requires s != []
    ensures IsMedian(s, m) <==> m == Median(s)
  {
    SortOrders(s);
    HalfwayIff(Sort(s), m);
    if IsMedian(s, m) {
      var t :| Listing(s, t) && Halfway(t, m);
      SortLists(s, t);
    }
    if m == Median(s) {
      SortLists(s, Sort(s));
      assert Listing(s, Sort(s)) && Halfway(Sort(s), m);
    }
  }

  ghost predicate DistancesFrom(s: seq<real>, m: real, d: seq<real>) {
    && |d| == |s|
    && forall i :: 0 <= i < |s| ==> d[i] >= 0.0 && (s[i] == m + d[i] || s[i] + d[i] == m)
  }

  /** `x` is the median of the distances from the median. */
  ghost predicate IsMad(s: seq<real>, x: real) {
    exists m, d :: IsMedian(s, m) && DistancesFrom(s, m, d) && IsMedian(d, x)
  }

  lemma DistancesAre(s: seq<real>, m: real, d: seq<real>)
    ensures DistancesFrom(s, m, d) <==> d == Deviations(s, m)
  {
  }

  lemma MadIff(s: seq<real>, x: real)
    requires s != []
    ensures IsMad(s, x) <==> x == Mad(s)
  {
    var m := Median(s);
    if IsMad(s, x) {
      var n, e :| IsMedian(s, n) && DistancesFrom(s, n, e) && IsMedian(e, x);
      MedianIff(s, n);
      DistancesAre(s, n, e);
      MedianIff(e, x);
    }
    if x == Mad(s) {
      var d := Deviations(s, m);
      MedianIff(s, m);
      DistancesAre(s, m, d);
      MedianIff(d, x);
      assert IsMedian(s, m) && DistancesFrom(s, m, d) && IsMedian(d, x);
    }
  }

  /** 100`k` is nearest to `m` of all multiples of 100, the even one of two. */
  predicate NearestHundred(m: nat, k: nat) {
    var e: int := 100 * k - m;
    -50 <= e <= 50 && (e == 50 || e == -50 ==> k % 2 == 0)
  }

  lemma HundredsIff(m: nat, k: nat, q: nat, r: nat)
    requires m == 100 * q + r && r < 100
    ensures NearestHundred(m, k) <==> k == if r > 50 || (r == 50 && q % 2 == 1) then q + 1 else q
  {
    var e: int := 100 * k - m;
    assert k == q ==> e + r == 0;
    assert k == q + 1 ==> e == 100 - r;
  }

  /** Counted from one, the place read off is the whole number nearest to 95 hundredths of the count. */
  lemma Round95Iff(n: nat, k: nat)
    ensures NearestHundred(95 * n, k) <==> k == Round95(n)
  {
    var m := 95 * n;
    HundredsIff(m, k, m / 100, m % 100);
  }

  /** What is filed with samples: their number, median and deviation, and the sample whose place in order, counted
      from one, is nearest to 95 hundredths of the number. */
  lemma StatsAre(samples: seq<real>, t: seq<real>, k: nat)
    requires samples != [] && Listing(samples, t) && NearestHundred(95 * |samples|, k)
    ensures |t| == |samples| && 1 <= k <= |t|
    ensures var st := StatsOf(samples);
            st.n == |t| && IsMedian(samples, st.median) && IsMad(samples, st.mad) && st.p95 == t[k - 1]
  {
    SortLists(samples, t);
    SortOrders(samples);
    Round95Iff(|samples|, k);
    PlaceOf95(|samples|, k);
    MedianIff(samples, Median(samples));
    MadIff(samples, Mad(samples));
  }

  lemma PlaceOf95(n: nat, k: nat)
    requires n > 0 && k == Round95(n)
    ensures k >= 1 && RankOf95(n) == k - 1
  {
  }
}
