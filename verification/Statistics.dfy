/** Order statistics over exact numbers: medians, interpolated percentiles and nearest-rank percentiles. */
module Statistics {
  import opened Common
  import opened Sorting

  /** The sorted rearrangement of a population. */
  function Sorted(xs: seq<real>): (s: seq<real>)
    ensures |s| == |xs| && multiset(s) == multiset(xs) && SortedBy(s, RealLe)
  {
    RealLeTotal();
    SortSorts(xs, RealLe);
    Sort(xs, RealLe)
  }

  /** The middle value, or the mean of the two middle values. */
  function Median(xs: seq<real>): real
    requires |xs| > 0
  {
    var middle := |xs| / 2;
    if |xs| % 2 == 1 then Sorted(xs)[middle] else (Sorted(xs)[middle - 1] + Sorted(xs)[middle]) / 2.0
  }

  /** The position of a probability in a sorted population. */
  function Position(n: nat, p: real): (position: real)
    requires n > 0 && 0.0 <= p <= 1.0
    ensures 0.0 <= position <= (n - 1) as real
  {
    ScaledWithin((n - 1) as real, p);
    Scaled((n - 1) as real, p)
  }

  /** Linear interpolation of a sorted population at a position. */
  function At(s: seq<real>, position: real): real
    requires 0.0 <= position <= (|s| - 1) as real
  {
    var lower, upper := position.Floor, Ceil(position);
    if lower == upper then s[lower] else s[lower] + Scaled(s[upper] - s[lower], position - lower as real)
  }

  /** The R-7 empirical percentile. */
  function Percentile(xs: seq<real>, p: real): real
    requires |xs| > 0 && 0.0 <= p <= 1.0
  {
    At(Sorted(xs), Position(|xs|, p))
  }

  function NearestIndex(n: nat, fraction: real): (index: nat)
    requires n > 0 && fraction <= 1.0
    ensures index < n
  {
    ScaledLe(n as real, fraction, 1.0);
    assert Scaled(n as real, 1.0) == n as real;
    CeilLe(Scaled(n as real, fraction), n);
    Max(0, Ceil(Scaled(n as real, fraction)) - 1)
  }

  /** The nearest-rank percentile; None on an empty population. */
  function NearestRank(xs: seq<real>, fraction: real): Option<real>
    requires fraction <= 1.0
  {
    if |xs| == 0 then None else Some(Sorted(xs)[NearestIndex(|xs|, fraction)])
  }

  /** The sum of a population, and of its squared distances from a value. */
  function Total(xs: seq<real>): real {
    if |xs| == 0 then 0.0 else Total(xs[..|xs| - 1]) + xs[|xs| - 1]
  }

  function SquaredDeviation(xs: seq<real>, mean: real): real {
    if |xs| == 0 then 0.0
    else SquaredDeviation(xs[..|xs| - 1], mean) + Square(xs[|xs| - 1] - mean)
  }

  function Square(d: real): real { Scaled(d, d) }

  /** Deviations from two centres differ by the parallel-axis terms, so the mean has the least. */
  lemma {:induction false} DeviationShifts(xs: seq<real>, m: real, c: real)
    ensures SquaredDeviation(xs, c) == SquaredDeviation(xs, m) + 2.0 * (m - c) * (Total(xs) - |xs| as real * m)
                                       + |xs| as real * ((m - c) * (m - c))
  {
    if |xs| > 0 {
      var n := |xs| - 1;
      DeviationShifts(xs[..n], m, c);
      ShiftOne(Total(xs[..n]), n as real, xs[n], m, c);
    }
  }

  lemma ShiftOne(total: real, n: real, x: real, m: real, c: real)
    ensures 2.0 * (m - c) * (total + x - (n + 1.0) * m) + (n + 1.0) * ((m - c) * (m - c)) ==
            2.0 * (m - c) * (total - n * m) + n * ((m - c) * (m - c)) + Square(x - c) - Square(x - m)
  {
    var d := m - c;
    assert (x - c) * (x - c) == (x - m) * (x - m) + 2.0 * d * (x - m) + d * d;
    assert 2.0 * d * (total + x - (n + 1.0) * m) == 2.0 * d * (total - n * m) + 2.0 * d * (x - m);
  }

  /** Nothing deviates exactly when every value is the centre. */
  lemma {:induction false} DeviationZero(xs: seq<real>, m: real)
    ensures SquaredDeviation(xs, m) >= 0.0
    ensures SquaredDeviation(xs, m) == 0.0 <==> forall i :: 0 <= i < |xs| ==> xs[i] == m
  {
    if |xs| > 0 {
      hide Square;
      var n := |xs| - 1;
      var front, d := xs[..n], xs[n] - m;
      DeviationZero(front, m);
      SquarePositive(d);
      assert (forall i :: 0 <= i < |xs| ==> xs[i] == m) <==> xs[n] == m && forall i :: 0 <= i < n ==> front[i] == m;
    }
  }

  lemma SquarePositive(d: real)
    ensures Square(d) >= 0.0 && (Square(d) == 0.0 <==> d == 0.0)
  {
    hide Scaled;
    ScaledSigns(d, d);
    ScaledSigns(-d, -d);
    ScaledNegated(d, d);
  }

  lemma ScaledSigns(a: real, b: real)
    ensures a > 0.0 && b > 0.0 ==> Scaled(a, b) > 0.0
    ensures a == 0.0 ==> Scaled(a, b) == 0.0
  {
  }

  lemma ScaledNegated(a: real, b: real)
    ensures Scaled(-a, -b) == Scaled(a, b)
  {
  }

  /** A total lies between as many times the least and the greatest value. */
  lemma {:induction false} TotalBetween(xs: seq<real>, low: real, high: real)
    requires forall i :: 0 <= i < |xs| ==> low <= xs[i] <= high
    ensures Scaled(|xs| as real, low) <= Total(xs) <= Scaled(|xs| as real, high)
  {
    if |xs| > 0 {
      var n := |xs| - 1;
      TotalBetween(xs[..n], low, high);
      OneMore(n as real, low);
      OneMore(n as real, high);
      assert low <= xs[n] <= high;
    }
  }

  lemma OneMore(n: real, x: real)
    ensures Scaled(n + 1.0, x) == Scaled(n, x) + x
  {
  }

  // ----- staying within the population -----

  /** Between two members of the population. */
  ghost predicate Within(xs: seq<real>, r: real) {
    (exists i :: 0 <= i < |xs| && xs[i] <= r) && (exists i :: 0 <= i < |xs| && r <= xs[i])
  }

  lemma SortedMember(xs: seq<real>, k: nat)
    requires k < |xs|
    ensures Sorted(xs)[k] in xs
  {
    hide Sorted;
    assert Sorted(xs)[k] in multiset(Sorted(xs));
  }

  lemma BetweenRanks(xs: seq<real>, low: nat, high: nat, r: real)
    requires low < |xs| && high < |xs| && Sorted(xs)[low] <= r <= Sorted(xs)[high]
    ensures Within(xs, r)
  {
    hide Sorted;
    SortedMember(xs, low);
    SortedMember(xs, high);
  }

  lemma MedianWithin(xs: seq<real>)
    requires |xs| > 0
    ensures Within(xs, Median(xs))
  {
    hide Sorted, Within;
    var middle := |xs| / 2;
    if |xs| % 2 == 1 {
      BetweenRanks(xs, middle, middle, Median(xs));
    } else {
      assert RealLe(Sorted(xs)[middle - 1], Sorted(xs)[middle]);
      BetweenRanks(xs, middle - 1, middle, Median(xs));
    }
  }

  lemma AtBounds(s: seq<real>, position: real)
    requires 0.0 <= position <= (|s| - 1) as real && SortedBy(s, RealLe)
    ensures 0 <= position.Floor <= Ceil(position) < |s|
    ensures s[position.Floor] <= At(s, position) <= s[Ceil(position)]
  {
    var lower, upper := position.Floor, Ceil(position);
    CeilLe(position, |s| - 1);
    if lower < upper {
      assert RealLe(s[lower], s[upper]);
      ScaledWithin(s[upper] - s[lower], position - lower as real);
    }
  }

  lemma PercentileWithin(xs: seq<real>, p: real)
    requires |xs| > 0 && 0.0 <= p <= 1.0
    ensures Within(xs, Percentile(xs, p))
  {
    hide Sorted, Within, At;
    var position := Position(|xs|, p);
    AtBounds(Sorted(xs), position);
    BetweenRanks(xs, position.Floor, Ceil(position), Percentile(xs, p));
  }

  lemma NearestRankWithin(xs: seq<real>, fraction: real)
    requires |xs| > 0 && fraction <= 1.0
    ensures Within(xs, NearestRank(xs, fraction).value)
  {
    hide Sorted, Within;
    var k := NearestIndex(|xs|, fraction);
    BetweenRanks(xs, k, k, NearestRank(xs, fraction).value);
  }

  // ----- what the statistics mean -----

  lemma AtMonotone(s: seq<real>, x: real, y: real)
    requires 0.0 <= x <= y <= (|s| - 1) as real && SortedBy(s, RealLe)
    ensures At(s, x) <= At(s, y)
  {
    AtBounds(s, x);
    AtBounds(s, y);
    if x.Floor == y.Floor {
      if Ceil(x) > x.Floor {
        assert Ceil(y) == Ceil(x) && RealLe(s[x.Floor], s[Ceil(x)]);
        ScaledLe(s[Ceil(x)] - s[x.Floor], x - x.Floor as real, y - x.Floor as real);
      } else {
        assert At(s, x) == s[y.Floor];
      }
    } else {
      CeilLe(x, y.Floor);
      if Ceil(x) < y.Floor { assert RealLe(s[Ceil(x)], s[y.Floor]); }
    }
  }

  /** A percentile never falls as the probability rises, so every interval is ordered. */
  lemma PercentileMonotone(xs: seq<real>, p: real, q: real)
    requires |xs| > 0 && 0.0 <= p <= q <= 1.0
    ensures Percentile(xs, p) <= Percentile(xs, q)
  {
    hide Sorted, At, Scaled;
    ScaledLe((|xs| - 1) as real, p, q);
    AtMonotone(Sorted(xs), Position(|xs|, p), Position(|xs|, q));
  }

  /** The median is the interpolated percentile at one half, for odd and even populations alike. */
  lemma MedianIsHalfPercentile(xs: seq<real>)
    requires |xs| > 0
    ensures Median(xs) == Percentile(xs, 0.5)
  {
    hide Sorted;
    var n, middle := |xs|, |xs| / 2;
    if n % 2 == 1 {
      assert Position(n, 0.5) == middle as real;
    } else {
      assert Position(n, 0.5) == middle as real - 0.5;
    }
  }

  /** The percentile at `(k + t) / (n - 1)` lies that far between the k-th and the next sorted value (from zero),
      so at `k / (n - 1)` it is the k-th. */
  lemma PercentileInterpolates(xs: seq<real>, p: real, k: nat, t: real)
    requires k < |xs| && 0.0 <= t <= 1.0 && (k == |xs| - 1 ==> t == 0.0)
    requires 0.0 <= p <= 1.0 && p * (|xs| - 1) as real == k as real + t
    ensures k + 1 < |xs| ==> Percentile(xs, p) == (1.0 - t) * Sorted(xs)[k] + t * Sorted(xs)[k + 1]
    ensures k + 1 == |xs| ==> Percentile(xs, p) == Sorted(xs)[k]
  {
    hide Sorted;
    assert Position(|xs|, p) == k as real + t;
    if t == 1.0 {
      assert Percentile(xs, p) == Sorted(xs)[k + 1];
    } else if 0.0 < t {
      assert (k as real + t).Floor == k;
    }
  }

  function AtMost(c: real): real -> nat { (x: real) => if x <= c then 1 else 0 }

  function Below(c: real): real -> nat { (x: real) => if x < c then 1 else 0 }

  function Above(c: real): real -> nat { (x: real) => if x > c then 1 else 0 }

  lemma {:induction false} AboveOrAtMost(xs: seq<real>, n: nat, c: real)
    requires n <= |xs|
    ensures SumTo(xs, n, Above(c)) + SumTo(xs, n, AtMost(c)) == n
  {
    if n > 0 { AboveOrAtMost(xs, n - 1, c); }
  }

  /** Half of the population is at or below the median, and half at or above it. */
  lemma MedianSplits(xs: seq<real>)
    requires |xs| > 0
    ensures 2 * Sum(xs, Below(Median(xs))) <= |xs| && 2 * Sum(xs, Above(Median(xs))) <= |xs|
  {
    var m, middle, n := Median(xs), |xs| / 2, |xs|;
    var low := if n % 2 == 1 then middle else middle - 1;
    RankCounts(xs, low);
    RankCounts(xs, middle);
    assert RealLe(Sorted(xs)[low], Sorted(xs)[middle]) by { RanksAscend(xs, low, middle); }
    assert Sorted(xs)[low] <= m <= Sorted(xs)[middle];
    var a, b := Sorted(xs)[low], Sorted(xs)[middle];
    hide Sorted, Median;
    AboveOrAtMost(xs, n, m);
    SumDominated(xs, Below(m), Below(b));
    SumDominated(xs, AtMost(a), AtMost(m));
  }

  lemma RanksAscend(xs: seq<real>, i: nat, j: nat)
    requires i <= j < |xs|
    ensures RealLe(Sorted(xs)[i], Sorted(xs)[j])
  {
    hide Sorted;
  }

  /** Ranks count: at least k + 1 values are at most the one of rank k, and at most k are below it. */
  lemma RankCounts(xs: seq<real>, k: nat)
    requires k < |xs|
    ensures Sum(xs, AtMost(Sorted(xs)[k])) >= k + 1
    ensures Sum(xs, Below(Sorted(xs)[k])) <= k
  {
    var s := Sorted(xs);
    var c := s[k];
    SortKeepsSum(xs, RealLe, AtMost(c));
    SortKeepsSum(xs, RealLe, Below(c));
    hide Sorted;
    forall i, j | 0 <= i < j < |s| ensures AtMost(c)(s[i]) >= AtMost(c)(s[j]) && Below(c)(s[i]) >= Below(c)(s[j]) {
      assert RealLe(s[i], s[j]);
    }
    PrefixCount(s, |s|, AtMost(c), k);
    PrefixCount(s, |s|, Below(c), k);
  }

  /** The nearest-rank percentile is the least value with at least that fraction at or below it. */
  lemma NearestRankMeans(xs: seq<real>, fraction: real)
    requires |xs| > 0 && 0.0 < fraction <= 1.0
    ensures var r := NearestRank(xs, fraction).value;
      && Sum(xs, AtMost(r)) as real >= Scaled(|xs| as real, fraction)
      && (Sum(xs, Below(r)) as real) < Scaled(|xs| as real, fraction)
  {
    hide Sorted, AtMost, Below, Sum;
    ScaledSigns(|xs| as real, fraction);
    RankCounts(xs, NearestIndex(|xs|, fraction));
  }
}
