/** Sorting by a total order, and counting in sorted sequences: the meaning of `sort_unstable`,
    `sorted` and of rank statistics. */
module Sorting {
  import opened Common

  ghost predicate TotalOrder<T(!new)>(le: (T, T) -> bool) {
    && (forall a, b :: le(a, b) || le(b, a))
    && (forall a, b, c :: le(a, b) && le(b, c) ==> le(a, c))
  }

  ghost predicate SortedBy<T>(s: seq<T>, le: (T, T) -> bool) {
    forall i, j :: 0 <= i < j < |s| ==> le(s[i], s[j])
  }

  function Insert<T>(s: seq<T>, x: T, le: (T, T) -> bool): seq<T> {
    var n := |s| - 1;
    if |s| == 0 then [x]
    else if le(s[n], x) then s + [x]
    else Insert(s[..n], x, le) + [s[n]]
  }

  function Sort<T>(s: seq<T>, le: (T, T) -> bool): seq<T> {
    if |s| == 0 then [] else Insert(Sort(s[..|s| - 1], le), s[|s| - 1], le)
  }

  lemma {:induction false} InsertSorts<T(!new)>(s: seq<T>, x: T, le: (T, T) -> bool)
    requires TotalOrder(le) && SortedBy(s, le)
    ensures SortedBy(Insert(s, x, le), le)
    ensures multiset(Insert(s, x, le)) == multiset(s) + multiset{x}
  {
    var n := |s| - 1;
    if |s| > 0 {
      assert s == s[..n] + [s[n]];
      if le(s[n], x) {
        forall i | 0 <= i <= n ensures le(s[i], x) {
          assert i < n ==> le(s[i], s[n]);
        }
      } else {
        InsertSorts(s[..n], x, le);
        var t := Insert(s[..n], x, le);
        forall i | 0 <= i < |t| ensures le(t[i], s[n]) {
          assert t[i] in multiset(t);
          if t[i] != x {
            assert t[i] in multiset(s[..n]);
            assert t[i] in s[..n];
          }
        }
      }
    }
  }

  /** Sorting yields a sorted rearrangement. */
  lemma {:induction false} SortSorts<T(!new)>(s: seq<T>, le: (T, T) -> bool)
    requires TotalOrder(le)
    ensures SortedBy(Sort(s, le), le)
    ensures multiset(Sort(s, le)) == multiset(s) && |Sort(s, le)| == |s|
  {
    if |s| > 0 {
      var n := |s| - 1;
      SortSorts(s[..n], le);
      InsertSorts(Sort(s[..n], le), s[n], le);
      assert s == s[..n] + [s[n]];
      SameLength(Sort(s, le), s);
    }
  }

  lemma SameLength<T>(s: seq<T>, t: seq<T>)
    requires multiset(s) == multiset(t)
    ensures |s| == |t|
  {
    assert |multiset(s)| == |s| && |multiset(t)| == |t|;
  }

  lemma {:induction false} InsertAddsWeight<T>(s: seq<T>, x: T, le: (T, T) -> bool, weight: T -> nat)
    ensures Sum(Insert(s, x, le), weight) == Sum(s, weight) + weight(x)
  {
    var n := |s| - 1;
    if |s| == 0 {
      SumAppend([], x, weight);
      assert [] + [x] == Insert(s, x, le);
    } else if le(s[n], x) {
      SumAppend(s, x, weight);
    } else {
      InsertAddsWeight(s[..n], x, le, weight);
      SumAppend(Insert(s[..n], x, le), s[n], weight);
      SumAppend(s[..n], s[n], weight);
      assert s[..n] + [s[n]] == s;
    }
  }

  lemma {:induction false} SortKeepsSum<T>(s: seq<T>, le: (T, T) -> bool, weight: T -> nat)
    ensures Sum(Sort(s, le), weight) == Sum(s, weight)
  {
    if |s| > 0 {
      var n := |s| - 1;
      SortKeepsSum(s[..n], le, weight);
      InsertAddsWeight(Sort(s[..n], le), s[n], le, weight);
      SumAppend(s[..n], s[n], weight);
      assert s[..n] + [s[n]] == s;
    }
  }

  /** In a sequence where weight-one elements come first, they are counted by position. */
  lemma {:induction false} PrefixCount<T>(s: seq<T>, n: nat, weight: T -> nat, k: nat)
    requires k < n <= |s|
    requires forall i :: 0 <= i < n ==> weight(s[i]) <= 1
    requires forall i, j :: 0 <= i < j < n ==> weight(s[i]) >= weight(s[j])
    ensures weight(s[k]) == 1 <==> SumTo(s, n, weight) > k
    ensures SumTo(s, n, weight) <= n
  {
    if n == 1 {
      assert SumTo(s, 1, weight) == weight(s[0]);
    } else if k < n - 1 {
      PrefixCount(s, n - 1, weight, k);
      if weight(s[n - 1]) == 1 { assert weight(s[k]) >= weight(s[n - 1]); }
    } else {
      PrefixCount(s, n - 1, weight, n - 2);
      if weight(s[n - 1]) == 1 { assert weight(s[n - 2]) >= weight(s[n - 1]); }
    }
  }

  predicate NatLe(a: nat, b: nat) { a <= b }

  lemma NatLeTotal()
    ensures TotalOrder(NatLe)
    ensures forall a: nat, b: nat :: NatLe(a, b) && NatLe(b, a) ==> a == b
  {
  }

  predicate RealLe(a: real, b: real) { a <= b }

  lemma RealLeTotal()
    ensures TotalOrder(RealLe)
  {
  }
}
