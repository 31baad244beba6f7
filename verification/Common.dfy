/** Vocabulary shared by every component: optional values, fallible results,
    weighted sums over sequences, and 64-bit word sizes. */
module Common {

  datatype Option<+T> = None | Some(value: T)

  datatype Result<+T, +E> = Ok(value: T) | Err(error: E)

  /** The number of values of a 64-bit machine word (u64, and usize on the deployed targets). */
  const WORD: nat := 0x1_0000_0000_0000_0000

  function Max(a: int, b: int): int {
    if a < b then b else a
  }

  function Min(a: int, b: int): int {
    if a < b then a else b
  }

  /** The sum of a weight over the first `n` elements of a sequence, and over all of it. */
  function SumTo<T>(s: seq<T>, n: nat, weight: T -> nat): nat
    requires n <= |s|
  {
    if n == 0 then 0 else SumTo(s, n - 1, weight) + weight(s[n - 1])
  }

  function Sum<T>(s: seq<T>, weight: T -> nat): nat {
    SumTo(s, |s|, weight)
  }

  lemma {:induction false} SumToAgrees<T>(s: seq<T>, t: seq<T>, n: nat, weight: T -> nat)
    requires n <= |s| && n <= |t|
    requires forall i :: 0 <= i < n ==> s[i] == t[i]
    ensures SumTo(s, n, weight) == SumTo(t, n, weight)
  {
    if n > 0 {
      SumToAgrees(s, t, n - 1, weight);
    }
  }

  lemma {:induction false} SumAppend<T>(s: seq<T>, x: T, weight: T -> nat)
    ensures Sum(s + [x], weight) == Sum(s, weight) + weight(x)
  {
    SumToAgrees(s + [x], s, |s|, weight);
  }

  lemma {:induction false} SumToUpdate<T>(s: seq<T>, n: nat, i: nat, x: T, weight: T -> nat)
    requires i < n <= |s|
    ensures SumTo(s[i := x], n, weight) + weight(s[i]) == SumTo(s, n, weight) + weight(x)
  {
    if i == n - 1 {
      SumToAgrees(s[i := x], s, n - 1, weight);
    } else {
      SumToUpdate(s, n - 1, i, x, weight);
    }
  }

  lemma SumUpdate<T>(s: seq<T>, i: nat, x: T, weight: T -> nat)
    requires i < |s|
    ensures Sum(s[i := x], weight) + weight(s[i]) == Sum(s, weight) + weight(x)
  {
    SumToUpdate(s, |s|, i, x, weight);
  }

  /** A weight that never exceeds another sums to no more, and to less where it is smaller somewhere. */
  lemma {:induction false} SumToDominated<T>(s: seq<T>, n: nat, small: T -> nat, large: T -> nat)
    requires n <= |s|
    requires forall i :: 0 <= i < n ==> small(s[i]) <= large(s[i])
    ensures SumTo(s, n, small) <= SumTo(s, n, large)
    ensures (exists k :: 0 <= k < n && small(s[k]) < large(s[k])) ==> SumTo(s, n, small) < SumTo(s, n, large)
  {
    if n > 0 {
      SumToDominated(s, n - 1, small, large);
    }
  }

  lemma SumDominated<T>(s: seq<T>, small: T -> nat, large: T -> nat)
    requires forall i :: 0 <= i < |s| ==> small(s[i]) <= large(s[i])
    ensures Sum(s, small) <= Sum(s, large)
  {
    SumToDominated(s, |s|, small, large);
  }

  lemma SumStrictlyDominated<T>(s: seq<T>, k: nat, small: T -> nat, large: T -> nat)
    requires forall i :: 0 <= i < |s| ==> small(s[i]) <= large(s[i])
    requires k < |s| && small(s[k]) < large(s[k])
    ensures Sum(s, small) < Sum(s, large)
  {
    SumToDominated(s, |s|, small, large);
  }

  lemma SumAtLeast<T>(s: seq<T>, k: nat, weight: T -> nat)
    requires k < |s|
    ensures weight(s[k]) <= Sum(s, weight)
  {
    SumToAtLeast(s, |s|, k, weight);
  }

  lemma {:induction false} SumToAtLeast<T>(s: seq<T>, n: nat, k: nat, weight: T -> nat)
    requires k < n <= |s|
    ensures weight(s[k]) <= SumTo(s, n, weight)
  {
    if k < n - 1 {
      SumToAtLeast(s, n - 1, k, weight);
    }
  }

  lemma {:induction false} SumToZero<T>(s: seq<T>, n: nat, weight: T -> nat)
    requires n <= |s|
    requires forall i :: 0 <= i < n ==> weight(s[i]) == 0
    ensures SumTo(s, n, weight) == 0
  {
    if n > 0 {
      SumToZero(s, n - 1, weight);
    }
  }

  lemma {:induction false} SumRemove<T>(s: seq<T>, k: nat, n: nat, weight: T -> nat)
    requires k < n <= |s|
    ensures SumTo(s, n, weight) == SumTo(s[..k] + s[k + 1..], n - 1, weight) + weight(s[k])
  {
    var rest := s[..k] + s[k + 1..];
    if k == n - 1 {
      SumToAgrees(s, rest, k, weight);
    } else {
      SumRemove(s, k, n - 1, weight);
      assert rest[n - 2] == s[n - 1];
    }
  }

  lemma MultisetRemove<T>(s: seq<T>, k: nat)
    requires k < |s|
    ensures multiset(s[..k] + s[k + 1..]) == multiset(s) - multiset{s[k]}
  {
    assert s == s[..k] + [s[k]] + s[k + 1..];
  }

  /** A sum does not depend on the order. */
  lemma {:induction false} SumPermuted<T>(s: seq<T>, t: seq<T>, weight: T -> nat)
    requires multiset(s) == multiset(t)
    ensures Sum(s, weight) == Sum(t, weight)
    decreases |s|
  {
    assert |multiset(s)| == |s| && |multiset(t)| == |t|;
    if |s| > 0 {
      var n := |s| - 1;
      assert s[n] in multiset(t);
      var k :| 0 <= k < |t| && t[k] == s[n];
      MultisetRemove(s, n);
      MultisetRemove(t, k);
      SumPermuted(s[..n] + s[n + 1..], t[..k] + t[k + 1..], weight);
      SumRemove(t, k, |t|, weight);
      SumRemove(s, n, |s|, weight);
    }
  }

  /** The positions below `n` of weight one. */
  ghost function Positions<T>(s: seq<T>, n: nat, weight: T -> nat): set<int>
    requires n <= |s|
  {
    set i | 0 <= i < n && weight(s[i]) == 1
  }

  /** A sum of weights zero and one counts positions. */
  lemma {:induction false} SumCounts<T>(s: seq<T>, n: nat, weight: T -> nat)
    requires n <= |s| && forall i :: 0 <= i < n ==> weight(s[i]) <= 1
    ensures SumTo(s, n, weight) == |Positions(s, n, weight)|
  {
    if n == 0 {
      assert Positions(s, 0, weight) == {};
    } else {
      SumCounts(s, n - 1, weight);
      if weight(s[n - 1]) == 1 {
        assert Positions(s, n, weight) == Positions(s, n - 1, weight) + {n - 1};
      } else {
        assert Positions(s, n, weight) == Positions(s, n - 1, weight);
      }
    }
  }

  /** The numbers below `n`, in order. */
  function UpTo(n: nat): (range: seq<nat>)
    ensures |range| == n && forall i :: 0 <= i < n ==> range[i] == i
  {
    seq(n, i requires 0 <= i < n => i)
  }

  ghost predicate Distinct<T(!new)>(s: seq<T>) {
    forall i, j :: 0 <= i < j < |s| ==> s[i] != s[j]
  }

  /** Taking one element out of a duplicate-free listing leaves the others, still duplicate-free. */
  lemma DropListed(listed: seq<nat>, k: nat)
    requires Distinct(listed) && k < |listed|
    ensures var rest := listed[..k] + listed[k + 1..];
      |rest| == |listed| - 1 && Distinct(rest) && forall i: nat :: i in rest <==> i in listed && i != listed[k]
  {
    var rest := listed[..k] + listed[k + 1..];
    forall i: nat ensures i in rest <==> i in listed && i != listed[k] {
      if i in rest {
        var j :| 0 <= j < |rest| && rest[j] == i;
        var m := if j < k then j else j + 1;
        assert listed[m] == i && listed[m] != listed[k];
      }
      if i in listed && i != listed[k] {
        var j :| 0 <= j < |listed| && listed[j] == i;
        assert rest[if j < k then j else j - 1] == i;
      }
    }
  }

  /** A duplicate-free listing of the positions with weight one is as long as the weights sum to. */
  lemma {:induction false} DistinctCount<T>(listed: seq<nat>, s: seq<T>, n: nat, weight: T -> nat)
    requires n <= |s| && Distinct(listed)
    requires forall i :: 0 <= i < n ==> weight(s[i]) <= 1
    requires forall i: nat :: i in listed <==> i < n && weight(s[i]) == 1
    ensures |listed| == SumTo(s, n, weight)
  {
    hide Distinct;
    assert |listed| > 0 ==> listed[0] in listed;
    if n == 0 {
    } else if n - 1 in listed {
      var k :| 0 <= k < |listed| && listed[k] == n - 1;
      DropListed(listed, k);
      DistinctCount(listed[..k] + listed[k + 1..], s, n - 1, weight);
    } else {
      DistinctCount(listed, s, n - 1, weight);
    }
  }

  /** Different numbers below `n` are at most `n` many. */
  lemma {:induction false} Pigeonhole(listed: seq<nat>, n: nat)
    requires Distinct(listed) && forall i :: 0 <= i < |listed| ==> listed[i] < n
    ensures |listed| <= n
  {
    if |listed| > 0 { assert listed[0] < n; }
    if k :| 0 <= k < |listed| && listed[k] == n - 1 {
      DropListed(listed, k);
      var rest := listed[..k] + listed[k + 1..];
      forall i | 0 <= i < |rest| ensures rest[i] < n - 1 { assert rest[i] in rest; }
      Pigeonhole(rest, n - 1);
    } else if n > 0 {
      Pigeonhole(listed, n - 1);
    }
  }

  // ----- products and quotients -----

  lemma MulLe(a: nat, b: nat, c: nat)
    requires a <= b
    ensures a * c <= b * c
  {
  }

  lemma MulCancel(a: nat, b: nat, c: nat)
    requires a * c <= b * c && c > 0
    ensures a <= b
  {
    if b < a { MulLe(b + 1, a, c); }
  }

  lemma MulCancelLess(a: nat, b: nat, c: nat)
    requires a * c < b * c
    ensures a < b
  {
    if b <= a { MulLe(b, a, c); }
  }

  lemma QuotientBounds(x: nat, p: nat, lo: nat, hi: nat)
    requires p > 0 && lo * p <= x < hi * p
    ensures lo <= x / p < hi
    ensures (x / p) * p <= x < (x / p + 1) * p
  {
    QuotientSpan(x, p);
    if x / p < lo { MulLe(x / p + 1, lo, p); }
    if x / p >= hi { MulLe(hi, x / p, p); }
  }

  lemma QuotientSpan(x: nat, p: nat)
    requires p > 0
    ensures (x / p) * p <= x < (x / p + 1) * p
  {
    var q, r := x / p, x % p;
    assert x == p * q + r;
    assert (q + 1) * p == p * q + p;
  }

  function Pow2(n: nat): (p: nat)
    ensures p >= 1
  {
    if n == 0 then 1 else 2 * Pow2(n - 1)
  }

  lemma {:induction false} Pow2Monotone(a: nat, b: nat)
    ensures a <= b <==> Pow2(a) <= Pow2(b)
    decreases a + b
  {
    if a > 0 && b > 0 { Pow2Monotone(a - 1, b - 1); }
  }

  lemma DivModUnique(x: nat, m: nat, q: nat, r: nat)
    requires x == m * q + r && r < m
    ensures x / m == q && x % m == r
  {
    QuotientSpan(x, m);
    if x / m < q { MulLe(x / m + 1, q, m); }
    if x / m > q { MulLe(q + 1, x / m, m); }
  }

  /** A product of reals, kept apart so that its few laws can be used by name. */
  function Scaled(c: real, x: real): real { c * x }

  lemma ScaledLe(c: real, a: real, b: real)
    requires 0.0 <= c && a <= b
    ensures Scaled(c, a) <= Scaled(c, b)
  {
    assert c * (b - a) >= 0.0;
    assert c * b == c * a + c * (b - a);
  }

  lemma ScaledWithin(c: real, x: real)
    requires 0.0 <= c && 0.0 <= x <= 1.0
    ensures 0.0 <= Scaled(c, x) <= c
  {
    ScaledLe(c, 0.0, x);
    ScaledLe(c, x, 1.0);
  }

  lemma RatioCompare(a: real, b: real, c: real)
    requires b > 0.0
    ensures a / b <= c <==> a <= c * b
    ensures a / b >= c <==> a >= c * b
  {
    var q := a / b;
    assert q * b == a;
    if q > c { assert (q - c) * b > 0.0; }
    if q < c { assert (c - q) * b > 0.0; }
  }

  /** The least integer not below `x`. */
  function Ceil(x: real): (c: int)
    ensures c as real - 1.0 < x <= c as real
  {
    if x == x.Floor as real then x.Floor else x.Floor + 1
  }

  lemma CeilLe(x: real, n: int)
    requires x <= n as real
    ensures Ceil(x) <= n
  {
  }

  lemma CeilMonotone(x: real, y: real)
    requires x <= y
    ensures Ceil(x) <= Ceil(y)
  {
    CeilLe(x, Ceil(y));
  }
}
