/**
 Descriptive statistics and z-score anomalies (src/ai/ada.py), over real numbers.  The standard
 deviation is represented by its square: `std` is the non-negative root of `variance`, and every
 statement about it is made by comparing squares.
 */
module Statistics {
  import opened RealArithmetic

  function Sum(s: seq<real>): real {
    if s == [] then 0.0 else Sum(s[..|s| - 1]) + s[|s| - 1]
  }

  function Square(x: real): (y: real)
    ensures y >= 0.0
  {
    NonNegativeSquare(x);
    x * x
  }

  function SumSquares(s: seq<real>): (r: real)
    ensures r >= 0.0
  {
    if s == [] then 0.0 else SumSquares(s[..|s| - 1]) + Square(s[|s| - 1])
  }

  /** Every value minus `c`. */
  function Shifted(s: seq<real>, c: real): (r: seq<real>)
    ensures |r| == |s| && forall k :: 0 <= k < |s| ==> r[k] == s[k] - c
  {
    seq(|s|, k requires 0 <= k < |s| => s[k] - c)
  }

  function Abs(x: real): (y: real)
    ensures y >= 0.0 && (y == x || y == -x)
  {
    if x < 0.0 then -x else x
  }

  /** The sum of the distances from `c`. */
  ghost function Distances(s: seq<real>, c: real): real {
    if s == [] then 0.0 else Distances(s[..|s| - 1], c) + Abs(s[|s| - 1] - c)
  }

  function Min(s: seq<real>): (m: real)
    requires s != []
    ensures m in s && forall x :: x in s ==> m <= x
  {
    if |s| == 1 then s[0]
    else
      var m := Min(s[..|s| - 1]);
      assert forall x :: x in s ==> x in s[..|s| - 1] || x == s[|s| - 1];
      if s[|s| - 1] < m then s[|s| - 1] else m
  }

  function Max(s: seq<real>): (m: real)
    requires s != []
    ensures m in s && forall x :: x in s ==> x <= m
  {
    if |s| == 1 then s[0]
    else
      var m := Max(s[..|s| - 1]);
      assert forall x :: x in s ==> x in s[..|s| - 1] || x == s[|s| - 1];
      if s[|s| - 1] > m then s[|s| - 1] else m
  }

  ghost predicate SortedUp(s: seq<real>) {
    forall i, j :: 0 <= i < j < |s| ==> s[i] <= s[j]
  }

  function Insert(x: real, s: seq<real>): (r: seq<real>)
    ensures |r| == |s| + 1
  {
    if s == [] || x >= s[|s| - 1] then s + [x] else Insert(x, s[..|s| - 1]) + [s[|s| - 1]]
  }

  /** `sorted(data)`. */
  function Sorted(s: seq<real>): (r: seq<real>)
    ensures |r| == |s|
  {
    if s == [] then [] else Insert(s[|s| - 1], Sorted(s[..|s| - 1]))
  }

  lemma {:induction false} InsertKeepsOrder(x: real, s: seq<real>)
    requires SortedUp(s)
    ensures SortedUp(Insert(x, s))
    ensures s != [] && x < s[|s| - 1] ==> Insert(x, s)[|s|] == s[|s| - 1]
  {
    if s != [] && x < s[|s| - 1] {
      InsertKeepsOrder(x, s[..|s| - 1]);
    }
  }

  lemma {:induction false} InsertKeepsValues(x: real, s: seq<real>)
    ensures multiset(Insert(x, s)) == multiset(s) + multiset{x}
  {
    if s != [] && x < s[|s| - 1] {
      InsertKeepsValues(x, s[..|s| - 1]);
      assert s == s[..|s| - 1] + [s[|s| - 1]];
    }
  }

  /** `Sorted` returns the same values in ascending order. */
  lemma {:induction false} SortedIsSorted(s: seq<real>)
    ensures SortedUp(Sorted(s)) && multiset(Sorted(s)) == multiset(s)
  {
    if s != [] {
      SortedIsSorted(s[..|s| - 1]);
      InsertKeepsOrder(s[|s| - 1], Sorted(s[..|s| - 1]));
      InsertKeepsValues(s[|s| - 1], Sorted(s[..|s| - 1]));
      assert s == s[..|s| - 1] + [s[|s| - 1]];
    }
  }

  // ---------------------------------------------------------------- analyze

  datatype Summary = Summary(
    count: nat, mean: real, median: real, variance: real, min: real, max: real, sum: real)

  function Mean(data: seq<real>): real
    requires data != []
  {
    Sum(data) / |data| as real
  }

  /** The square of the sample standard deviation. */
  function Variance(data: seq<real>): real
    requires data != []
  {
    if |data| == 1 then 0.0 else SumSquares(Shifted(data, Mean(data))) / (|data| - 1) as real
  }

  function MiddleOf(ordered: seq<real>): real
    requires ordered != []
  {
    var mid := |ordered| / 2;
    if |ordered| % 2 == 1 then ordered[mid] else (ordered[mid - 1] + ordered[mid]) / 2.0
  }

  function Analyze(data: seq<real>): Summary {
    if data == [] then Summary(0, 0.0, 0.0, 0.0, 0.0, 0.0, 0.0)
    else Summary(|data|, Mean(data), MiddleOf(Sorted(data)), Variance(data), Min(data), Max(data), Sum(data))
  }

  // ---------------------------------------------------------------- sums

  lemma MeanTimesCount(data: seq<real>, n: real, mean: real)
    requires data != [] && n == |data| as real && mean == Mean(data)
    ensures n * mean == Sum(data)
  {
    QuotientTimes(Sum(data), n);
  }

  lemma VarianceTimes(data: seq<real>, n: real, v: real)
    requires |data| >= 2 && n == |data| as real && v == Variance(data)
    ensures v >= 0.0 && (n - 1.0) * v == SumSquares(Shifted(data, Mean(data)))
  {
    var q := SumSquares(Shifted(data, Mean(data)));
    QuotientTimes(q, n - 1.0);
    Cancel(0.0, q / (n - 1.0), n - 1.0);
  }

  lemma {:induction false} ShiftedSum(s: seq<real>, n: real, c: real)
    requires n == |s| as real
    ensures Sum(Shifted(s, c)) == Sum(s) - n * c
  {
    if s == [] {
      TimesZero(n, c);
    } else {
      ShiftedSum(s[..|s| - 1], n - 1.0, c);
      assert Shifted(s, c)[..|s| - 1] == Shifted(s[..|s| - 1], c);
      OneMore(n - 1.0, c);
    }
  }

  /** The deviations from the mean cancel out. */
  lemma DeviationsSumToZero(data: seq<real>)
    requires data != []
    ensures Sum(Shifted(data, Mean(data))) == 0.0
  {
    MeanTimesCount(data, |data| as real, Mean(data));
    ShiftedSum(data, |data| as real, Mean(data));
  }

  lemma {:induction false} SumBounds(s: seq<real>, n: real, lo: real, hi: real)
    requires n == |s| as real && forall k :: 0 <= k < |s| ==> lo <= s[k] <= hi
    ensures n * lo <= Sum(s) <= n * hi
  {
    if s == [] {
      TimesZero(n, lo);
      TimesZero(n, hi);
    } else {
      SumBounds(s[..|s| - 1], n - 1.0, lo, hi);
      OneMore(n - 1.0, lo);
      OneMore(n - 1.0, hi);
    }
  }

  /** sum(f(x) for x in s); keeping f abstract keeps products out of the proofs about order. */
  ghost function SumOf(f: real -> real, s: seq<real>): real {
    if s == [] then 0.0 else SumOf(f, s[..|s| - 1]) + f(s[|s| - 1])
  }

  lemma {:induction false} InsertSumOf(f: real -> real, x: real, s: seq<real>)
    ensures SumOf(f, Insert(x, s)) == SumOf(f, s) + f(x)
  {
    var r := Insert(x, s);
    if s == [] || x >= s[|s| - 1] {
      assert r[..|r| - 1] == s;
    } else {
      InsertSumOf(f, x, s[..|s| - 1]);
      assert r[..|r| - 1] == Insert(x, s[..|s| - 1]);
    }
  }

  lemma {:induction false} SortedSumOf(f: real -> real, s: seq<real>)
    ensures SumOf(f, Sorted(s)) == SumOf(f, s)
  {
    if s != [] {
      SortedSumOf(f, s[..|s| - 1]);
      InsertSumOf(f, s[|s| - 1], Sorted(s[..|s| - 1]));
    }
  }

  lemma {:induction false} SumIsSumOf(f: real -> real, s: seq<real>)
    requires forall x :: f(x) == x
    ensures SumOf(f, s) == Sum(s)
  {
    if s != [] {
      SumIsSumOf(f, s[..|s| - 1]);
    }
  }

  lemma {:induction false} SumSquaresIsSumOf(f: real -> real, s: seq<real>)
    requires forall x :: f(x) == Square(x)
    ensures SumOf(f, s) == SumSquares(s)
  {
    if s != [] {
      SumSquaresIsSumOf(f, s[..|s| - 1]);
    }
  }

  /** Sorting changes no sum. */
  lemma SortedSum(s: seq<real>)
    ensures Sum(Sorted(s)) == Sum(s)
  {
    var identity := (x: real) => x;
    SortedSumOf(identity, s);
    SumIsSumOf(identity, s);
    SumIsSumOf(identity, Sorted(s));
  }

  lemma SortedSumSquares(s: seq<real>)
    ensures SumSquares(Sorted(s)) == SumSquares(s)
  {
    var square := (x: real) => Square(x);
    SortedSumOf(square, s);
    SumSquaresIsSumOf(square, s);
    SumSquaresIsSumOf(square, Sorted(s));
  }

  lemma {:induction false} InsertShifted(x: real, s: seq<real>, c: real)
    ensures Insert(x - c, Shifted(s, c)) == Shifted(Insert(x, s), c)
  {
    var t := Shifted(s, c);
    if s != [] && x < s[|s| - 1] {
      InsertShifted(x, s[..|s| - 1], c);
      assert t[..|t| - 1] == Shifted(s[..|s| - 1], c);
    }
  }

  /** Sorting and shifting commute. */
  lemma {:induction false} SortedShifted(s: seq<real>, c: real)
    ensures Sorted(Shifted(s, c)) == Shifted(Sorted(s), c)
  {
    if s != [] {
      SortedShifted(s[..|s| - 1], c);
      assert Shifted(s, c)[..|s| - 1] == Shifted(s[..|s| - 1], c);
      InsertShifted(s[|s| - 1], Sorted(s[..|s| - 1]), c);
    }
  }

  lemma SortedMember(s: seq<real>, k: nat)
    requires k < |s|
    ensures Sorted(s)[k] in s
  {
    SortedIsSorted(s);
    assert Sorted(s)[k] in multiset(Sorted(s));
  }

  // ---------------------------------------------------------------- mean and median

  /** The mean lies between the smallest and the largest value. */
  lemma MeanInRange(data: seq<real>)
    requires data != []
    ensures Min(data) <= Mean(data) <= Max(data)
  {
    MeanTimesCount(data, |data| as real, Mean(data));
    MeanBetween(data, |data| as real, Mean(data), Min(data), Max(data));
  }

  lemma MeanBetween(s: seq<real>, n: real, mean: real, lo: real, hi: real)
    requires s != [] && n == |s| as real && n * mean == Sum(s)
    requires forall x :: x in s ==> lo <= x <= hi
    ensures lo <= mean <= hi
  {
    forall k | 0 <= k < |s| ensures lo <= s[k] <= hi {
      assert s[k] in s;
    }
    SumBounds(s, n, lo, hi);
    Between(n, lo, mean, hi, Sum(s));
  }

  lemma Between(n: real, lo: real, mean: real, hi: real, sum: real)
    requires n > 0.0 && n * mean == sum && n * lo <= sum <= n * hi
    ensures lo <= mean <= hi
  {
    Cancel(lo, mean, n);
    Cancel(mean, hi, n);
  }

  /** So does the median. */
  lemma MedianInRange(data: seq<real>)
    requires data != []
    ensures Min(data) <= MiddleOf(Sorted(data)) <= Max(data)
  {
    var mid := |data| / 2;
    SortedMember(data, mid);
    if |data| % 2 == 0 {
      SortedMember(data, mid - 1);
    }
  }

  /** The median of an ordered list minimises the sum of distances: drop the two ends and recurse. */
  lemma {:induction false} MedianMinimisesDistances(s: seq<real>, c: real)
    requires s != [] && SortedUp(s)
    ensures Distances(s, MiddleOf(s)) <= Distances(s, c)
    decreases |s|
  {
    var n, m := |s|, MiddleOf(s);
    if n == 1 {
      assert s[..0] == [];
    } else {
      Ends(s, c);
      Ends(s, m);
      var inner := s[1..n - 1];
      if n == 2 {
        assert inner == [];
      } else {
        assert MiddleOf(inner) == m;
        MedianMinimisesDistances(inner, c);
      }
      assert s[0] <= m <= s[n - 1];
    }
  }

  lemma Ends(s: seq<real>, c: real)
    requires |s| >= 2
    ensures Distances(s, c) == Abs(s[0] - c) + Distances(s[1..|s| - 1], c) + Abs(s[|s| - 1] - c)
  {
    DistancesFront(s[..|s| - 1], c);
    assert s[..|s| - 1][1..] == s[1..|s| - 1];
  }

  lemma {:induction false} DistancesFront(s: seq<real>, c: real)
    requires s != []
    ensures Distances(s, c) == Abs(s[0] - c) + Distances(s[1..], c)
  {
    if |s| > 1 {
      DistancesFront(s[..|s| - 1], c);
      assert s[..|s| - 1][1..] == s[1..][..|s| - 2];
    } else {
      assert s[..0] == [] && s[1..] == [];
    }
  }

  lemma {:induction false} SumWithinDistances(s: seq<real>, n: real, c: real)
    requires n == |s| as real
    ensures Abs(Sum(s) - n * c) <= Distances(s, c)
  {
    if s == [] {
      TimesZero(n, c);
    } else {
      var t := s[..|s| - 1];
      SumWithinDistances(t, n - 1.0, c);
      OneMore(n - 1.0, c);
      TriangleStep(Sum(t), Sum(s), (n - 1.0) * c, n * c, s[|s| - 1], c, Distances(t, c), Distances(s, c));
    }
  }

  lemma TriangleStep(a: real, a': real, b: real, b': real, x: real, c: real, total: real, total': real)
    requires a' == a + x && b' == b + c && total' == total + Abs(x - c)
    requires Abs(a - b) <= total
    ensures Abs(a' - b') <= total'
  {
  }

  /** 2 d |u| is at most the square of u plus the square of d, summed up. */
  lemma {:induction false} DistancesBelowSquares(s: seq<real>, n: real, d: real, l: real, q: real)
    requires d >= 0.0 && n == |s| as real && l == Distances(s, 0.0) && q == SumSquares(s)
    ensures 2.0 * (d * l) <= q + n * (d * d)
  {
    if s == [] {
      TimesZero(n, d * d);
    } else {
      var t, u := s[..|s| - 1], s[|s| - 1];
      var l0, q0 := Distances(t, 0.0), SumSquares(t);
      DistancesBelowSquares(t, n - 1.0, d, l0, q0);
      OneMoreSquare(n - 1.0, n, d, u, l0, l, q0, q);
    }
  }

  lemma OneMoreSquare(n: real, n': real, d: real, u: real, l: real, l': real, q: real, q': real)
    requires n' == n + 1.0 && l' == l + Abs(u) && q' == q + Square(u)
    requires 2.0 * (d * l) <= q + n * (d * d)
    ensures 2.0 * (d * l') <= q' + n' * (d * d)
  {
    TwiceProduct(d, Abs(u));
    assert Abs(u) * Abs(u) == u * u;
    DistributeOver(d, l, Abs(u));
    OneMore(n, d * d);
  }

  /** When the values sum to zero, a point with the smallest total distance is close to zero. */
  lemma CentredMinimiser(s: seq<real>, n: real, m: real, q: real)
    requires s != [] && n == |s| as real && q == SumSquares(s) && Sum(s) == 0.0
    requires Distances(s, m) <= Distances(s, 0.0)
    ensures n * (m * m) <= q
  {
    SumWithinDistances(s, n, m);
    DistancesBelowSquares(s, n, Abs(m), Distances(s, 0.0), q);
    GapBelowSquares(n, m, Abs(m), Sum(s), Distances(s, m), Distances(s, 0.0), q);
  }

  lemma CentredMedian(s: seq<real>, n: real, m: real, q: real)
    requires s != [] && n == |s| as real && q == SumSquares(s) && Sum(s) == 0.0
    requires SortedUp(s) && m == MiddleOf(s)
    ensures n * (m * m) <= q
  {
    MedianMinimisesDistances(s, 0.0);
    CentredMinimiser(s, n, m, q);
  }

  lemma GapBelowSquares(n: real, m: real, d: real, sum: real, least: real, total: real, q: real)
    requires n > 0.0 && d == Abs(m) && sum == 0.0
    requires Abs(sum - n * m) <= least && least <= total
    requires 2.0 * (d * total) <= q + n * (d * d)
    ensures n * (m * m) <= q
  {
    assert n * d <= total;
    Scale(n * d, total, d);
    Regroup(n, d, d);
    assert d * d == m * m;
  }

  lemma {:induction false} MiddleShifted(s: seq<real>, c: real)
    requires s != []
    ensures MiddleOf(Shifted(s, c)) == MiddleOf(s) - c
  {
  }

  /** The median lies within one sample standard deviation of the mean. */
  lemma MedianWithinOneStd(data: seq<real>, gap: real)
    requires data != [] && gap == MiddleOf(Sorted(data)) - Mean(data)
    ensures gap * gap <= Variance(data)
  {
    if |data| == 1 {
      SingleDeviation(data);
    } else {
      SeveralDeviations(data, gap, Variance(data));
    }
  }

  lemma SeveralDeviations(data: seq<real>, gap: real, v: real)
    requires |data| >= 2 && gap == MiddleOf(Sorted(data)) - Mean(data) && v == Variance(data)
    ensures gap * gap <= v
  {
    var n := |data| as real;
    VarianceTimes(data, n, v);
    DeviationsSumToZero(data);
    MedianNearMean(data, n, Mean(data), gap, v, SumSquares(Shifted(data, Mean(data))));
  }

  lemma MedianNearMean(data: seq<real>, n: real, mean: real, gap: real, v: real, q: real)
    requires n >= 2.0 && n == |data| as real && gap == MiddleOf(Sorted(data)) - mean
    requires Sum(Shifted(data, mean)) == 0.0 && q == SumSquares(Shifted(data, mean)) && (n - 1.0) * v == q
    ensures gap * gap <= v
  {
    SortedShifted(data, mean);
    MiddleShifted(Sorted(data), mean);
    CentredSpread(Shifted(data, mean), n, gap, v, q);
  }

  lemma CentredSpread(d: seq<real>, n: real, gap: real, v: real, q: real)
    requires n >= 2.0 && n == |d| as real && gap == MiddleOf(Sorted(d))
    requires Sum(d) == 0.0 && q == SumSquares(d) && (n - 1.0) * v == q
    ensures gap * gap <= v
  {
    SortedSum(d);
    SortedSumSquares(d);
    SortedIsSorted(d);
    CentredMedian(Sorted(d), n, gap, q);
    BelowVariance(n, gap, v, q);
  }

  lemma BelowVariance(n: real, gap: real, v: real, q: real)
    requires n >= 2.0 && n * (gap * gap) <= q && (n - 1.0) * v == q
    ensures gap * gap <= v
  {
    NonNegativeSquare(gap);
    OneMore(n - 1.0, gap * gap);
    Cancel(gap * gap, v, n - 1.0);
  }

  lemma SingleDeviation(data: seq<real>)
    requires |data| == 1
    ensures Mean(data) == data[0] && MiddleOf(Sorted(data)) == data[0]
  {
    assert data[..0] == [];
    assert Sum(data[..0]) == 0.0;
    assert Sum(data) == data[0];
    SortedMember(data, 0);
  }

  /** The values with the least sum of distances to an ordered list are those between its two middle elements. */
  lemma {:induction false} MinimisersOfDistances(s: seq<real>, c: real)
    requires s != [] && SortedUp(s)
    ensures Distances(s, c) == Distances(s, MiddleOf(s)) <==> s[(|s| - 1) / 2] <= c <= s[|s| / 2]
    decreases |s|
  {
    if |s| == 1 {
      assert s[..0] == [];
    } else {
      MiddleInside(s);
      PeelEnds(s, c, MiddleOf(s));
      Astride(s[0], s[|s| - 1], c);
      if |s| > 2 {
        InnerMiddle(s);
        MedianMinimisesDistances(s[1..|s| - 1], c);
        MinimisersOfDistances(s[1..|s| - 1], c);
      }
    }
  }

  lemma MiddleInside(s: seq<real>)
    requires |s| >= 2 && SortedUp(s)
    ensures s[0] <= s[(|s| - 1) / 2] <= MiddleOf(s) <= s[|s| / 2] <= s[|s| - 1]
    ensures 2.0 * MiddleOf(s) == s[(|s| - 1) / 2] + s[|s| / 2]
  {
  }

  lemma InnerMiddle(s: seq<real>)
    requires |s| > 2 && SortedUp(s)
    ensures var inner := s[1..|s| - 1];
            && SortedUp(inner) && MiddleOf(inner) == MiddleOf(s)
            && inner[(|inner| - 1) / 2] == s[(|s| - 1) / 2] && inner[|inner| / 2] == s[|s| / 2]
  {
  }

  /** What the two ends of a list add to the distance from `c`, compared with a point between them. */
  lemma PeelEnds(s: seq<real>, c: real, m: real)
    requires |s| >= 2 && s[0] <= m <= s[|s| - 1]
    ensures var inner := s[1..|s| - 1];
            Distances(s, c) - Distances(s, m) ==
            Distances(inner, c) - Distances(inner, m) + Abs(s[0] - c) + Abs(s[|s| - 1] - c) - (s[|s| - 1] - s[0])
    ensures |s| == 2 ==> Distances(s, m) == s[1] - s[0] && Distances(s, c) == Abs(s[0] - c) + Abs(s[1] - c)
  {
    Ends(s, c);
    Ends(s, m);
  }

  lemma Astride(a: real, b: real, c: real)
    requires a <= b
    ensures Abs(a - c) + Abs(b - c) >= b - a
    ensures Abs(a - c) + Abs(b - c) == b - a <==> a <= c <= b
  {
  }

  lemma {:induction false} DistancesIsSumOf(f: real -> real, s: seq<real>, c: real)
    requires forall x :: f(x) == Abs(x - c)
    ensures SumOf(f, s) == Distances(s, c)
  {
    if s != [] {
      DistancesIsSumOf(f, s[..|s| - 1], c);
    }
  }

  lemma SortedDistances(s: seq<real>, c: real)
    ensures Distances(Sorted(s), c) == Distances(s, c)
  {
    var distance := (x: real) => Abs(x - c);
    SortedSumOf(distance, s);
    DistancesIsSumOf(distance, s, c);
    DistancesIsSumOf(distance, Sorted(s), c);
  }

  /** The reported median is the centre of the values with the least sum of distances to the data. */
  lemma ReportedMedianIsCentre(data: seq<real>, r: Summary) returns (lo: real, hi: real)
    requires data != [] && r == Analyze(data)
    ensures lo <= hi && 2.0 * r.median == lo + hi
    ensures forall c :: Distances(data, r.median) <= Distances(data, c)
    ensures forall c :: Distances(data, c) == Distances(data, r.median) <==> lo <= c <= hi
  {
    var ordered := Sorted(data);
    SortedIsSorted(data);
    lo, hi := ordered[(|data| - 1) / 2], ordered[|data| / 2];
    forall c
      ensures Distances(data, r.median) <= Distances(data, c)
      ensures Distances(data, c) == Distances(data, r.median) <==> lo <= c <= hi
    {
      MedianMinimisesDistances(ordered, c);
      MinimisersOfDistances(ordered, c);
      SortedDistances(data, c);
      SortedDistances(data, r.median);
    }
  }

  /** Count, sum, mean and variance are reported under their names. */
  lemma ReportedFigures(data: seq<real>, r: Summary, n: real, mean: real, variance: real)
    requires data != [] && r == Analyze(data)
    requires n == r.count as real && mean == r.mean && variance == r.variance
    ensures r.count == |data| && r.sum == Sum(data) && n * mean == r.sum
    ensures (n - 1.0) * variance == SumSquares(Shifted(data, mean)) && (|data| == 1 ==> variance == 0.0)
  {
    MeanTimesCount(data, n, mean);
    SpreadTimes(data, n, mean, variance);
  }

  lemma SpreadTimes(data: seq<real>, n: real, mean: real, v: real)
    requires data != [] && n == |data| as real && mean == Mean(data) && v == Variance(data)
    ensures (n - 1.0) * v == SumSquares(Shifted(data, mean))
  {
    if |data| == 1 {
      SingleDeviation(data);
      NoSpread(Shifted(data, mean));
      TimesZero(n - 1.0, v);
    } else {
      VarianceTimes(data, n, v);
    }
  }

  lemma NoSpread(d: seq<real>)
    requires |d| == 1 && d[0] == 0.0
    ensures SumSquares(d) == 0.0
  {
    assert d[..0] == [];
    assert SumSquares(d[..0]) == 0.0;
  }

  /** What `analyze` reports is consistent, for every non-empty list. */
  lemma ReportIsConsistent(data: seq<real>, r: Summary)
    requires data != [] && r == Analyze(data)
    ensures r.min in data && r.max in data && forall x :: x in data ==> r.min <= x <= r.max
    ensures r.min <= r.mean <= r.max && r.min <= r.median <= r.max
  {
    MeanInRange(data);
    MedianInRange(data);
  }

  lemma ReportedMedianWithinOneStd(data: seq<real>, gap: real, v: real)
    requires data != [] && gap == Analyze(data).median - Analyze(data).mean && v == Analyze(data).variance
    ensures gap * gap <= v
  {
    MedianWithinOneStd(data, gap);
  }

  // ---------------------------------------------------------------- anomalies

  /** |dev| / std > threshold, for a positive std. */
  predicate Exceeds(dev: real, threshold: real, variance: real) {
    threshold < 0.0 || dev * dev > threshold * threshold * variance
  }

  predicate Flagged(data: seq<real>, threshold: real, i: nat)
    requires i < |data|
  {
    Exceeds(data[i] - Mean(data), threshold, Variance(data))
  }

  lemma ZScore(dev: real, threshold: real, v: real, std: real, std': real, z: real)
    requires std > 0.0 && std' == std && v == std * std' && z * std == Abs(dev)
    ensures z > threshold <==> Exceeds(dev, threshold, v)
  {
    NonNegativeQuotient(z, std, Abs(dev));
    PositiveProduct(std, std', v);
    SquareOfProduct(z, std);
    assert dev * dev == z * z * v;
    if 0.0 <= threshold < z {
      SquaresInOrder(z, threshold);
      ScaleStrictly(threshold * threshold, z * z, v);
    } else if 0.0 <= z < threshold {
      SquaresInOrder(threshold, z);
      ScaleStrictly(z * z, threshold * threshold, v);
    }
  }

  lemma NonNegativeQuotient(z: real, std: real, a: real)
    requires std > 0.0 && a >= 0.0 && z * std == a
    ensures z >= 0.0
  {
    if z < 0.0 {
      ScaleStrictly(z, 0.0, std);
    }
  }

  /** A point is flagged exactly if its z-score, with the standard deviation of the sample, exceeds the threshold. */
  lemma FlaggedIsZScore(data: seq<real>, threshold: real, i: nat, std: real)
    requires i < |data| && std > 0.0 && std * std == Variance(data)
    ensures Flagged(data, threshold, i) <==> Abs(data[i] - Mean(data)) / std > threshold
  {
    var dev := data[i] - Mean(data);
    QuotientTimes(Abs(dev), std);
    ZScore(dev, threshold, Variance(data), std, std, Abs(dev) / std);
  }

  ghost predicate Increasing(s: seq<nat>) {
    forall a, b :: 0 <= a < b < |s| ==> s[a] < s[b]
  }

  method DetectAnomalies(data: seq<real>, threshold: real) returns (outliers: seq<nat>)
    ensures Increasing(outliers)
    ensures forall i: nat :: i in outliers <==>
              |data| >= 2 && Variance(data) != 0.0 && i < |data| && Flagged(data, threshold, i)
  {
    outliers := [];
    if |data| < 2 {
      return;
    }
    var mean := Mean(data);
    var variance := SumSquares(Shifted(data, mean)) / (|data| - 1) as real;
    if variance == 0.0 {
      return;
    }
    for i := 0 to |data|
      invariant Increasing(outliers) && forall a :: 0 <= a < |outliers| ==> outliers[a] < i
      invariant forall k: nat :: k in outliers <==> k < i && Flagged(data, threshold, k)
    {
      if Exceeds(data[i] - mean, threshold, variance) {
        outliers := outliers + [i];
      }
    }
  }

  ghost predicate IncreasingBelow(s: seq<nat>, n: nat) {
    Increasing(s) && forall k :: 0 <= k < |s| ==> s[k] < n
  }

  ghost function SquaresAt(d: seq<real>, idx: seq<nat>): real
    requires forall k :: 0 <= k < |idx| ==> idx[k] < |d|
  {
    if idx == [] then 0.0
    else SquaresAt(d, idx[..|idx| - 1]) + d[idx[|idx| - 1]] * d[idx[|idx| - 1]]
  }

  lemma {:induction false} SquaresAtPrefix(d: seq<real>, idx: seq<nat>)
    requires d != [] && forall k :: 0 <= k < |idx| ==> idx[k] < |d| - 1
    ensures SquaresAt(d[..|d| - 1], idx) == SquaresAt(d, idx)
  {
    if idx != [] {
      SquaresAtPrefix(d, idx[..|idx| - 1]);
    }
  }

  lemma {:induction false} SquaresAtBelowAll(d: seq<real>, idx: seq<nat>)
    requires IncreasingBelow(idx, |d|)
    ensures SquaresAt(d, idx) <= SumSquares(d)
    decreases |d|
  {
    if idx != [] {
      var n := |d| - 1;
      var fewer := if idx[|idx| - 1] == n then idx[..|idx| - 1] else idx;
      forall k | 0 <= k < |fewer| ensures fewer[k] < n {
        assert k < |idx| - 1 ==> idx[k] < idx[|idx| - 1];
      }
      SquaresAtPrefix(d, fewer);
      SquaresAtBelowAll(d[..n], fewer);
      NonNegativeSquare(d[n]);
    }
  }

  ghost predicate AllAbove(d: seq<real>, idx: seq<nat>, b: real) {
    forall k :: 0 <= k < |idx| ==> idx[k] < |d| && d[idx[k]] * d[idx[k]] > b
  }

  lemma {:induction false} SquaresAtAbove(d: seq<real>, idx: seq<nat>, n: real, b: real)
    requires AllAbove(d, idx, b) && n == |idx| as real
    ensures SquaresAt(d, idx) >= n * b
    ensures idx != [] ==> SquaresAt(d, idx) > n * b
  {
    if idx == [] {
      TimesZero(n, b);
    } else {
      SquaresAtAbove(d, idx[..|idx| - 1], n - 1.0, b);
      OneMore(n - 1.0, b);
    }
  }

  /** Chebyshev's count: k flagged points of n force k t^2 < n - 1. */
  lemma FewAnomalies(data: seq<real>, threshold: real, outliers: seq<nat>)
    requires |data| >= 2 && Variance(data) != 0.0 && threshold >= 0.0
    requires IncreasingBelow(outliers, |data|) && outliers != []
    requires forall k :: 0 <= k < |outliers| ==> Flagged(data, threshold, outliers[k])
    ensures |outliers| as real * (threshold * threshold) < |data| as real - 1.0
  {
    var n, v, t2 := |data| as real, Variance(data), threshold * threshold;
    VarianceTimes(data, n, v);
    FewAbove(Shifted(data, Mean(data)), n, t2, v, t2 * v, outliers);
  }

  lemma FewAbove(d: seq<real>, n: real, t2: real, v: real, b: real, idx: seq<nat>)
    requires n == |d| as real && b == t2 * v && (n - 1.0) * v == SumSquares(d) && v > 0.0
    requires IncreasingBelow(idx, |d|) && idx != [] && AllAbove(d, idx, b)
    ensures |idx| as real * t2 < n - 1.0
  {
    ChosenBelowSum(d, b, idx, |idx| as real, SumSquares(d));
    FewArithmetic(|idx| as real, t2, v, n - 1.0, SumSquares(d));
  }

  lemma ChosenBelowSum(d: seq<real>, b: real, idx: seq<nat>, k: real, q: real)
    requires IncreasingBelow(idx, |d|) && idx != [] && AllAbove(d, idx, b)
    requires k == |idx| as real && q == SumSquares(d)
    ensures k * b < q
  {
    SquaresAtBelowAll(d, idx);
    SquaresAtAbove(d, idx, k, b);
  }

  lemma FewArithmetic(k: real, t2: real, v: real, m: real, q: real)
    requires v > 0.0 && k * (t2 * v) < q && m * v == q
    ensures k * t2 < m
  {
    Regroup(k, t2, v);
    CancelStrictly(k * t2, m, v);
  }

  // ---------------------------------------------------------------- when one point can be flagged

  /** The square of a sum is at most the number of terms times the sum of their squares. */
  lemma {:induction false} CauchySchwarz(s: seq<real>, n: real, a: real, q: real)
    requires n == |s| as real && a == Sum(s) && q == SumSquares(s)
    ensures a * a <= n * q
  {
    if s != [] {
      var t := s[..|s| - 1];
      CauchySchwarz(t, n - 1.0, Sum(t), SumSquares(t));
      CauchyStep(n - 1.0, n, Sum(t), a, SumSquares(t), q, s[|s| - 1]);
    }
  }

  lemma CauchyStep(n: real, n': real, a: real, a': real, q: real, q': real, v: real)
    requires (n == 0.0 || n >= 1.0) && n' == n + 1.0 && a' == a + v && q' == q + v * v
    requires q >= 0.0 && a * a <= n * q
    ensures q' >= 0.0 && a' * a' <= n' * q'
  {
    NonNegativeSquare(v);
    SquareOfSum(a, v);
    OneMore(n, q + v * v);
    DistributeOver(n, q, v * v);
    if n == 0.0 {
      if a != 0.0 {
        PositiveSquare(a);
      }
    } else {
      TwiceProduct(a, n * v);
      SquareOfProduct(n, v);
      CrossTerm(n, a, q, v);
    }
  }

  lemma CrossTerm(n: real, a: real, q: real, v: real)
    requires n >= 1.0 && a * a <= n * q
    requires 2.0 * (a * (n * v)) <= a * a + (n * n) * (v * v)
    ensures 2.0 * (a * v) <= q + n * (v * v)
  {
    Regroup(n, a, v);
    Regroup(n, n, v * v);
    DistributeOver(n, q, n * (v * v));
    assert n * (2.0 * (a * v)) == 2.0 * (n * (a * v));
    Cancel(2.0 * (a * v), q + n * (v * v), n);
  }

  /** The same with one term left out. */
  lemma {:induction false} CauchySchwarzBut(s: seq<real>, k: nat, m: real, w: real, a: real, q: real)
    requires k < |s| && m == |s| as real - 1.0 && w == s[k] * s[k]
    requires a == Sum(s) - s[k] && q == SumSquares(s) - w
    ensures q >= 0.0 && a * a <= m * q
    decreases |s|
  {
    var t := s[..|s| - 1];
    if k == |s| - 1 {
      CauchySchwarz(t, m, a, q);
    } else {
      CauchySchwarzBut(t, k, m - 1.0, w, Sum(t) - s[k], SumSquares(t) - w);
      CauchyStep(m - 1.0, m, Sum(t) - s[k], a, SumSquares(t) - w, q, s[|s| - 1]);
    }
  }

  /** Samuelson's inequality: no single deviation is far out compared with all of them. */
  lemma OnePointBounded(d: seq<real>, k: nat, n: real, q: real)
    requires k < |d| && Sum(d) == 0.0 && n == |d| as real && q == SumSquares(d)
    ensures n * (d[k] * d[k]) <= (n - 1.0) * q
  {
    var w := d[k] * d[k];
    CauchySchwarzBut(d, k, n - 1.0, w, 0.0 - d[k], q - w);
    PointArithmetic(n, d[k], q);
  }

  lemma PointArithmetic(n: real, u: real, q: real)
    requires (0.0 - u) * (0.0 - u) <= (n - 1.0) * (q - u * u)
    ensures n * (u * u) <= (n - 1.0) * q
  {
    assert (0.0 - u) * (0.0 - u) == u * u;
    DistributeOver(n - 1.0, q, -(u * u));
    OneMore(n - 1.0, u * u);
  }

  lemma {:induction false} Zeros(s: seq<real>, c: real)
    requires forall k :: 0 <= k < |s| ==> s[k] == c
    ensures Sum(s) == |s| as real * c
    ensures SumSquares(s) == |s| as real * (c * c)
  {
    if s != [] {
      var n := |s| - 1;
      Zeros(s[..n], c);
      OneMore(n as real, c);
      OneMore(n as real, c * c);
      assert |s| as real == n as real + 1.0;
    }
  }

  /** n - 1 zeros and a one: the most extreme sample of size n. */
  function Spike(n: nat): (s: seq<real>)
    requires n >= 2
    ensures |s| == n
  {
    seq(n - 1, _ => 0.0) + [1.0]
  }

  lemma SpikeSums(n: nat, c: real)
    requires n >= 2
    ensures Sum(Spike(n)) == 1.0
    ensures SumSquares(Shifted(Spike(n), c)) == (n as real - 1.0) * (c * c) + (1.0 - c) * (1.0 - c)
  {
    var s, d := Spike(n), Shifted(Spike(n), c);
    Zeros(s[..n - 1], 0.0);
    Zeros(d[..n - 1], -c);
    assert (-c) * (-c) == c * c;
    assert (n - 1) as real == n as real - 1.0;
  }

  /** Its mean is 1/n, its variance 1/n too, and its last point lies (n - 1)/n from the mean. */
  lemma SpikeSpread(n: nat)
    requires n >= 2
    ensures n as real * Mean(Spike(n)) == 1.0 && n as real * Variance(Spike(n)) == 1.0
    ensures n as real * (1.0 - Mean(Spike(n))) == n as real - 1.0
  {
    var s := Spike(n);
    MeanTimesCount(s, n as real, Mean(s));
    VarianceTimes(s, n as real, Variance(s));
    SpikeSums(n, Mean(s));
    SpikeArithmetic(n as real, Mean(s), Variance(s), SumSquares(Shifted(s, Mean(s))));
  }

  lemma SpikeArithmetic(r: real, mean: real, v: real, q: real)
    requires r >= 2.0 && r * mean == 1.0 && (r - 1.0) * v == q
    requires q == (r - 1.0) * (mean * mean) + (1.0 - mean) * (1.0 - mean)
    ensures r * v == 1.0 && r * (1.0 - mean) == r - 1.0
  {
    SquareOfSum(1.0, mean);
    OneMore(r - 1.0, mean * mean);
    Regroup(r, mean, mean);
    assert q == 1.0 - mean;
    Regroup(r, r - 1.0, v);
    DistributeOver(r, 1.0, -mean);
    CancelEqual(r * v, 1.0, r - 1.0);
  }

  ghost predicate CanFlag(n: nat, threshold: real) {
    exists data: seq<real>, i: nat :: |data| == n && i < n && Variance(data) != 0.0 && Flagged(data, threshold, i)
  }

  /** A sample of size n can contain an anomaly at threshold t exactly when n t^2 < (n - 1)^2. */
  lemma CanFlagIff(n: nat, threshold: real)
    requires n >= 2 && threshold >= 0.0
    ensures CanFlag(n, threshold) <==>
            n as real * (threshold * threshold) < (n as real - 1.0) * (n as real - 1.0)
  {
    if CanFlag(n, threshold) {
      FlaggingNeedsPoints(n, n as real, threshold);
    }
    if n as real * (threshold * threshold) < (n as real - 1.0) * (n as real - 1.0) {
      SpikeIsFlagged(n, threshold);
    }
  }

  lemma FlaggingNeedsPoints(n: nat, r: real, threshold: real)
    requires n >= 2 && r == n as real && threshold >= 0.0 && CanFlag(n, threshold)
    ensures r * (threshold * threshold) < (r - 1.0) * (r - 1.0)
  {
    var data: seq<real>, i: nat :| |data| == n && i < n && Variance(data) != 0.0 && Flagged(data, threshold, i);
    FlagOf(data, r, threshold, i);
  }

  lemma FlagOf(data: seq<real>, n: real, threshold: real, i: nat)
    requires |data| >= 2 && n == |data| as real && i < |data| && threshold >= 0.0
    requires Variance(data) != 0.0 && Flagged(data, threshold, i)
    ensures n * (threshold * threshold) < (n - 1.0) * (n - 1.0)
  {
    DeviationsSumToZero(data);
    VarianceTimes(data, n, Variance(data));
    FlagNeedsSpread(Shifted(data, Mean(data)), n, Variance(data), threshold, i);
  }

  lemma FlagNeedsSpread(d: seq<real>, n: real, v: real, threshold: real, i: nat)
    requires |d| >= 2 && n == |d| as real && i < |d| && Sum(d) == 0.0 && threshold >= 0.0
    requires v > 0.0 && (n - 1.0) * v == SumSquares(d)
    requires Exceeds(d[i], threshold, v)
    ensures n * (threshold * threshold) < (n - 1.0) * (n - 1.0)
  {
    OnePointBounded(d, i, n, SumSquares(d));
    FlagArithmetic(n, threshold * threshold, v, d[i] * d[i], SumSquares(d));
  }

  lemma FlagArithmetic(r: real, t2: real, v: real, u2: real, q: real)
    requires r >= 2.0 && v > 0.0 && u2 > t2 * v
    requires r * u2 <= (r - 1.0) * q && (r - 1.0) * v == q
    ensures r * t2 < (r - 1.0) * (r - 1.0)
  {
    ScaleStrictly(t2 * v, u2, r);
    Regroup(r, t2, v);
    Regroup(r - 1.0, r - 1.0, v);
    CancelStrictly(r * t2, (r - 1.0) * (r - 1.0), v);
  }

  lemma SpikeIsFlagged(n: nat, threshold: real)
    requires n >= 2 && n as real * (threshold * threshold) < (n as real - 1.0) * (n as real - 1.0)
    ensures CanFlag(n, threshold)
  {
    var s := Spike(n);
    SpikeSpread(n);
    SpikeFlagged(n as real, threshold * threshold, Variance(s), 1.0 - Mean(s));
    assert s[n - 1] == 1.0;
    assert Flagged(s, threshold, n - 1);
  }

  lemma SpikeFlagged(r: real, t2: real, v: real, u: real)
    requires r >= 2.0 && r * v == 1.0 && r * u == r - 1.0 && r * t2 < (r - 1.0) * (r - 1.0)
    ensures v != 0.0 && u * u > t2 * v
  {
    SquareOfProduct(r, u);
    Regroup(r, r, t2 * v);
    Regroup(r, t2, v);
    Regroup(t2, r, v);
    Regroup(r, t2, 1.0);
    assert (r * r) * (t2 * v) == r * t2;
    ScaleStrictly(0.0, r, r);
    CancelStrictly(t2 * v, u * u, r * r);
  }

  /** The default threshold of two can flag something exactly from six points on. */
  lemma DefaultThreshold(n: nat)
    requires n >= 2
    ensures CanFlag(n, 2.0) <==> n >= 6
  {
    CanFlagIff(n, 2.0);
    DefaultArithmetic(n as real, n >= 6);
  }

  lemma DefaultArithmetic(r: real, large: bool)
    requires if large then r >= 6.0 else r == 2.0 || r == 3.0 || r == 4.0 || r == 5.0
    ensures r * (2.0 * 2.0) < (r - 1.0) * (r - 1.0) <==> large
  {
    if large {
      SquareOfSum(r, 1.0);
      Scale(6.0, r, r);
    }
  }
}
