/** The fixed-memory logarithmic latency histogram, and the four stages that use it. */
module LatencyHistogram {
  import opened Common
  import opened Sorting

  const SUB_BUCKETS: nat := 8
  const OCTAVES: nat := 41
  const BUCKETS: nat := OCTAVES * SUB_BUCKETS

  /** floor(log2(us)), that is 63 minus the leading zeros of a 64-bit word. */
  function Octave(us: nat): nat
    requires us > 0
  {
    if us == 1 then 0 else 1 + Octave(us / 2)
  }

  function Index(us: nat): (idx: nat)
    ensures idx < BUCKETS
  {
    if us < SUB_BUCKETS then us else
    var octave := Octave(us);
    OctaveRange(us);
    Pow2Monotone(octave + 1, 3);
    var sub := (us / Pow2(octave - 3)) % SUB_BUCKETS;
    Min(octave * SUB_BUCKETS + sub, BUCKETS - 1)
  }

  /** The bucket indices some value maps to: 8..23 are a gap. */
  predicate Used(idx: nat) {
    idx < SUB_BUCKETS || 3 * SUB_BUCKETS <= idx < BUCKETS
  }

  /** The source subtracts 3 from the octave of an unsigned index, so it is only defined off the gap. */
  function LowerBound(idx: nat): nat
    requires Used(idx)
  {
    if idx < SUB_BUCKETS then idx
    else (SUB_BUCKETS + idx % SUB_BUCKETS) * Pow2(idx / SUB_BUCKETS - 3)
  }

  // ----- bucket geometry -----

  lemma {:induction false} Pow2Add(a: nat, b: nat)
    ensures Pow2(a + b) == Pow2(a) * Pow2(b)
  {
    if a > 0 { Pow2Add(a - 1, b); }
  }

  lemma {:induction false} OctaveRange(us: nat)
    requires us > 0
    ensures Pow2(Octave(us)) <= us < Pow2(Octave(us) + 1)
  {
    if us > 1 { OctaveRange(us / 2); }
  }

  /** The octave is the only exponent whose powers bracket the value. */
  lemma OctaveUnique(us: nat, o: nat)
    requires Pow2(o) <= us < Pow2(o + 1)
    ensures us > 0 && Octave(us) == o
  {
    OctaveRange(us);
    if Octave(us) < o { Pow2Monotone(Octave(us) + 1, o); }
    if o < Octave(us) { Pow2Monotone(o + 1, Octave(us)); }
  }

  /** The start of the bucket with exponent `o` and leading four bits `q`. */
  function Start(o: nat, q: nat): nat
    requires o >= 3
  {
    q * Pow2(o - 3)
  }

  ghost predicate Covers(us: nat, o: nat, q: nat) {
    o >= 3 && 8 <= q <= 15 && Start(o, q) <= us < Start(o, q + 1)
  }

  lemma StartMonotone(o: nat, q: nat, r: nat)
    requires o >= 3 && q <= r
    ensures Start(o, q) <= Start(o, r)
  {
    MulLe(q, r, Pow2(o - 3));
  }

  /** A bucket's octave is [8 * 2^(o-3), 16 * 2^(o-3)). */
  lemma StartOctave(o: nat)
    requires o >= 3
    ensures Start(o, 8) == Pow2(o) && Start(o, 16) == Pow2(o + 1) && Start(o, 1) == Pow2(o - 3)
  {
    Pow2Add(3, o - 3);
    assert Pow2(3) == 8;
  }

  /** Every value of at least eight lies in exactly one such bucket. */
  lemma Leading(us: nat) returns (o: nat, q: nat)
    requires us >= 8
    ensures o == Octave(us) && Covers(us, o, q) && q == us / Pow2(o - 3)
  {
    o := Octave(us);
    OctaveRange(us);
    if o < 3 { Pow2Monotone(o + 1, 3); }
    StartOctave(o);
    q := us / Pow2(o - 3);
    QuotientBounds(us, Pow2(o - 3), 8, 16);
  }

  lemma IndexOf(us: nat, o: nat, q: nat)
    requires Covers(us, o, q)
    ensures us >= 8 && Index(us) == Min(o * 8 + (q - 8), BUCKETS - 1)
  {
    CoversOctave(us, o, q);
    CoversLead(us, o, q);
    hide Pow2, Start, Octave;
    assert q % SUB_BUCKETS == q - 8;
  }

  lemma CoversLead(us: nat, o: nat, q: nat)
    requires Covers(us, o, q)
    ensures us / Pow2(o - 3) == q
  {
    QuotientBounds(us, Pow2(o - 3), q, q + 1);
  }

  lemma CoversOctave(us: nat, o: nat, q: nat)
    requires Covers(us, o, q)
    ensures us >= 8 && Octave(us) == o
  {
    StartOctave(o);
    StartMonotone(o, 8, q);
    StartMonotone(o, q + 1, 16);
    Pow2Monotone(3, o);
    assert Pow2(3) == 8;
    OctaveUnique(us, o);
  }

  lemma IndexUsed(us: nat)
    ensures Used(Index(us))
  {
    if us >= 8 {
      var o, q := Leading(us);
      IndexOf(us, o, q);
    }
  }

  lemma CoversOrdered(us: nat, vs: nat, o: nat, q: nat, o': nat, q': nat)
    requires us <= vs && Covers(us, o, q) && Covers(vs, o', q')
    ensures o * 8 + q <= o' * 8 + q'
  {
    StartOctave(o);
    StartOctave(o');
    if o' < o {
      Pow2Monotone(o' + 1, o);
      StartMonotone(o, 8, q);
      StartMonotone(o', q' + 1, 16);
    } else if o == o' && q' < q {
      StartMonotone(o, q' + 1, q);
    }
  }

  /** Larger samples never fall into earlier buckets. */
  lemma IndexMonotone(us: nat, vs: nat)
    requires us <= vs
    ensures Index(us) <= Index(vs)
  {
    if vs >= 8 {
      var o', q' := Leading(vs);
      IndexOf(vs, o', q');
      if us >= 8 {
        var o, q := Leading(us);
        IndexOf(us, o, q);
        CoversOrdered(us, vs, o, q, o', q');
      }
    }
  }

  /** Every used bucket contains its own lower bound. */
  lemma LowerBoundInBucket(idx: nat)
    requires Used(idx)
    ensures Index(LowerBound(idx)) == idx
  {
    if idx >= SUB_BUCKETS {
      var o, q := idx / SUB_BUCKETS, SUB_BUCKETS + idx % SUB_BUCKETS;
      assert LowerBound(idx) == Start(o, q);
      StartCovered(o, q);
      hide Start, LowerBound, Index;
      IndexOf(LowerBound(idx), o, q);
    }
  }

  lemma StartCovered(o: nat, q: nat)
    requires o >= 3 && 8 <= q <= 15
    ensures Covers(Start(o, q), o, q)
  {
    assert (q + 1) * Pow2(o - 3) == q * Pow2(o - 3) + Pow2(o - 3);
  }

  lemma LowerBoundIsStart(us: nat, o: nat, q: nat)
    requires Covers(us, o, q) && o <= 40
    ensures Used(Index(us)) && LowerBound(Index(us)) == Start(o, q)
  {
    IndexOf(us, o, q);
    var idx := Index(us);
    assert idx == o * 8 + (q - 8);
    assert idx / SUB_BUCKETS == o && idx % SUB_BUCKETS == q - 8;
  }

  /** The reported bound never exceeds the sample, for every 64-bit value, clamped ones included. */
  lemma LowerBoundBelow(us: nat)
    ensures Used(Index(us)) && LowerBound(Index(us)) <= us
  {
    IndexUsed(us);
    if us >= 8 {
      var o, q := Leading(us);
      if o <= 40 {
        LowerBoundIsStart(us, o, q);
      } else {
        IndexOf(us, o, q);
        ClampedBelow(us, o, q);
      }
    }
  }

  lemma ClampedBelow(us: nat, o: nat, q: nat)
    requires Covers(us, o, q) && o >= 41
    ensures LowerBound(BUCKETS - 1) <= us
  {
    var top := BUCKETS - 1;
    assert top / SUB_BUCKETS == 40 && top % SUB_BUCKETS == 7;
    StartOctave(40);
    StartMonotone(40, 15, 16);
    StartOctave(o);
    Pow2Monotone(41, o);
    StartMonotone(o, 8, q);
  }

  /** Below the clamp the sample exceeds the reported bound by less than an eighth of that bound. */
  lemma WithinAnEighth(us: nat)
    requires us < Pow2(41)
    ensures Used(Index(us))
    ensures us == LowerBound(Index(us)) || 8 * us < 9 * LowerBound(Index(us))
  {
    IndexUsed(us);
    if us >= 8 {
      var o, q := Leading(us);
      OctaveRange(us);
      if o > 40 { Pow2Monotone(41, o); }
      LowerBoundIsStart(us, o, q);
      OneEighth(us, Pow2(o - 3), q);
    }
  }

  /** Above every octave the top bucket is reported. */
  lemma TopBucket(us: nat)
    requires us >= Pow2(41)
    ensures Index(us) == BUCKETS - 1 && LowerBound(BUCKETS - 1) == 15 * Pow2(37)
  {
    var o, q := Leading(us);
    OctaveRange(us);
    if o < 41 { Pow2Monotone(o + 1, 41); }
    IndexOf(us, o, q);
    var top := BUCKETS - 1;
    assert top / SUB_BUCKETS == 40 && top % SUB_BUCKETS == 7;
  }

  lemma TopPowers()
    ensures Pow2(41) == 128 * Pow2(34) && 15 * Pow2(37) == 120 * Pow2(34) && Pow2(34) > 0
  {
    assert Pow2(37) == 2 * Pow2(36) && Pow2(36) == 2 * Pow2(35) && Pow2(35) == 2 * Pow2(34);
    assert Pow2(41) == 2 * Pow2(40) && Pow2(40) == 2 * Pow2(39) && Pow2(39) == 2 * Pow2(38) && Pow2(38) == 2 * Pow2(37);
  }

  /** The error is at most an eighth of the true sample exactly up to 960 * 2^34 / 7 us: the top bucket is
      clamped, and there the error grows with the sample. */
  lemma PromiseExactly(us: nat)
    ensures Used(Index(us))
    ensures 8 * (us - LowerBound(Index(us))) <= us <==> 7 * us <= 960 * Pow2(34)
  {
    IndexUsed(us);
    TopPowers();
    if us < Pow2(41) {
      WithinAnEighth(us);
    } else {
      TopBucket(us);
    }
  }

  /** The first sample whose report is off by more than an eighth of it. */
  const FIRST_BEYOND: nat := 960 * 0x4_0000_0000 / 7 + 1

  lemma TopUnit()
    ensures Pow2(34) == 0x4_0000_0000
  {
    assert Pow2(10) == 0x400;
    assert Pow2(20) == 0x10_0000;
    assert Pow2(30) == 0x4000_0000;
  }

  /** It is, and every smaller sample keeps the promise. */
  lemma PromiseFails()
    ensures Index(FIRST_BEYOND) == BUCKETS - 1
    ensures 8 * (FIRST_BEYOND - LowerBound(BUCKETS - 1)) > FIRST_BEYOND
    ensures forall us: nat :: us < FIRST_BEYOND ==>
      Used(Index(us)) && 8 * (us - LowerBound(Index(us))) <= us
  {
    hide Index, LowerBound, Pow2;
    TopPowers();
    TopUnit();
    TopBucket(FIRST_BEYOND);
    forall us: nat | us < FIRST_BEYOND
      ensures Used(Index(us)) && 8 * (us - LowerBound(Index(us))) <= us
    {
      PromiseExactly(us);
    }
  }

  /** The strict bound, an eighth of the report and not of the sample: a sample equals its report or is less
      than nine eighths of it exactly below 135 * 2^34 us. */
  lemma EighthExactly(us: nat)
    ensures Used(Index(us))
    ensures us == LowerBound(Index(us)) || 8 * us < 9 * LowerBound(Index(us)) <==> us < 135 * Pow2(34)
  {
    IndexUsed(us);
    TopPowers();
    if us < Pow2(41) {
      WithinAnEighth(us);
    } else {
      TopBucket(us);
    }
  }

  /** The first sample that is nine eighths of its report. */
  lemma EighthFails()
    ensures Index(135 * Pow2(34)) == BUCKETS - 1
    ensures 8 * (135 * Pow2(34)) == 9 * LowerBound(BUCKETS - 1)
  {
    TopPowers();
    TopBucket(135 * Pow2(34));
  }

  lemma OneEighth(us: nat, p: nat, q: nat)
    requires q >= 8 && us < (q + 1) * p
    ensures 8 * us < 9 * (q * p)
  {
    MulLe(8, q, p);
    assert (q + 1) * p == q * p + p;
  }

  lemma LowerBoundMonotone(us: nat, vs: nat)
    requires us <= vs
    ensures Used(Index(us)) && Used(Index(vs))
    ensures LowerBound(Index(us)) <= LowerBound(Index(vs))
  {
    IndexUsed(us);
    IndexUsed(vs);
    IndexMonotone(us, vs);
    var a, b := Index(us), Index(vs);
    if LowerBound(b) < LowerBound(a) {
      LowerBoundInBucket(a);
      LowerBoundInBucket(b);
      IndexMonotone(LowerBound(b), LowerBound(a));
    }
  }

  // ----- the histogram -----

  function InBucket(i: nat): nat -> nat {
    (us: nat) => if Index(us) == i then 1 else 0
  }

  function BelowBucket(i: nat): nat -> nat {
    (us: nat) => if Index(us) < i then 1 else 0
  }

  lemma {:induction false} BelowGrows(samples: seq<nat>, n: nat, i: nat)
    requires n <= |samples|
    ensures SumTo(samples, n, BelowBucket(i + 1)) == SumTo(samples, n, BelowBucket(i)) + SumTo(samples, n, InBucket(i))
  {
    if n > 0 { BelowGrows(samples, n - 1, i); }
  }

  lemma {:induction false} AllBelowTop(samples: seq<nat>, n: nat)
    requires n <= |samples|
    ensures SumTo(samples, n, BelowBucket(0)) == 0
    ensures SumTo(samples, n, BelowBucket(BUCKETS)) == n
  {
    if n > 0 { AllBelowTop(samples, n - 1); }
  }

  /** The k-th smallest sample (k from one) is in bucket `i` exactly when the cumulative count first
      reaches k there. */
  lemma RankedBucket(samples: seq<nat>, k: nat, i: nat)
    requires 1 <= k <= |samples| && i < BUCKETS
    requires Sum(samples, BelowBucket(i)) < k <= Sum(samples, BelowBucket(i + 1))
    ensures |Sort(samples, NatLe)| == |samples|
    ensures Index(Sort(samples, NatLe)[k - 1]) == i
  {
    NatLeTotal();
    SortSorts(samples, NatLe);
    SortedBelow(samples, k, i);
    SortedBelow(samples, k, i + 1);
  }

  lemma SortedBelow(samples: seq<nat>, k: nat, i: nat)
    requires 1 <= k <= |samples|
    ensures |Sort(samples, NatLe)| == |samples|
    ensures Index(Sort(samples, NatLe)[k - 1]) < i <==> Sum(samples, BelowBucket(i)) >= k
  {
    NatLeTotal();
    SortSorts(samples, NatLe);
    SortKeepsSum(samples, NatLe, BelowBucket(i));
    SortedPrefix(Sort(samples, NatLe), k, i);
  }

  lemma SortedPrefix(t: seq<nat>, k: nat, i: nat)
    requires SortedBy(t, NatLe) && 1 <= k <= |t|
    ensures Index(t[k - 1]) < i <==> Sum(t, BelowBucket(i)) >= k
  {
    forall a, b | 0 <= a < b < |t| ensures BelowBucket(i)(t[a]) >= BelowBucket(i)(t[b]) {
      assert NatLe(t[a], t[b]);
      IndexMonotone(t[a], t[b]);
    }
    PrefixCount(t, |t|, BelowBucket(i), k - 1);
  }

  /** The rank `quantile` aims at: ceil(count * q), and at least one. */
  function Rank(count: nat, q: real): (k: nat)
    requires 0.0 <= q <= 1.0
    ensures 1 <= k && (count >= 1 ==> k <= count)
  {
    ScaledWithin(count as real, q);
    CeilLe(Scaled(count as real, q), count);
    Max(Ceil(Scaled(count as real, q)), 1)
  }

  lemma RankMonotone(count: nat, p: real, q: real)
    requires 0.0 <= p <= q <= 1.0
    ensures Rank(count, p) <= Rank(count, q)
  {
    ScaledLe(count as real, p, q);
    CeilMonotone(Scaled(count as real, p), Scaled(count as real, q));
  }

  /** The k-th smallest sample, k being the rank aimed at. */
  function RankedSample(samples: seq<nat>, q: real): (us: nat)
    requires 0.0 <= q <= 1.0 && |samples| > 0
    ensures us in samples
  {
    NatLeTotal();
    SortSorts(samples, NatLe);
    var us := Sort(samples, NatLe)[Rank(|samples|, q) - 1];
    assert us in multiset(samples);
    us
  }

  lemma RankedOrdered(samples: seq<nat>, p: real, q: real)
    requires 0.0 <= p <= q <= 1.0 && |samples| > 0
    ensures RankedSample(samples, p) <= RankedSample(samples, q)
  {
    NatLeTotal();
    SortSorts(samples, NatLe);
    RankMonotone(|samples|, p, q);
    var a, b := Rank(|samples|, p) - 1, Rank(|samples|, q) - 1;
    assert a < b ==> NatLe(Sort(samples, NatLe)[a], Sort(samples, NatLe)[b]);
  }

  /** What a quantile query means: the lower bound of the bucket of the sample of that rank. */
  function QuantileOf(samples: seq<nat>, q: real): nat
    requires 0.0 <= q <= 1.0
  {
    if |samples| == 0 then 0 else
    IndexUsed(RankedSample(samples, q));
    LowerBound(Index(RankedSample(samples, q)))
  }

  function AtMost(c: nat): nat -> nat { (us: nat) => if us <= c then 1 else 0 }

  function Less(c: nat): nat -> nat { (us: nat) => if us < c then 1 else 0 }

  lemma RankCounts(samples: seq<nat>, k: nat)
    requires k < |samples|
    ensures |Sort(samples, NatLe)| == |samples|
    ensures Sum(samples, AtMost(Sort(samples, NatLe)[k])) >= k + 1
    ensures Sum(samples, Less(Sort(samples, NatLe)[k])) <= k
  {
    NatLeTotal();
    SortSorts(samples, NatLe);
    var s: seq<nat> := Sort(samples, NatLe);
    var c := s[k];
    SortKeepsSum(samples, NatLe, AtMost(c));
    SortKeepsSum(samples, NatLe, Less(c));
    forall i, j | 0 <= i < j < |s| ensures AtMost(c)(s[i]) >= AtMost(c)(s[j]) && Less(c)(s[i]) >= Less(c)(s[j]) {
      assert NatLe(s[i], s[j]);
    }
    PrefixCount(s, |s|, AtMost(c), k);
    PrefixCount(s, |s|, Less(c), k);
  }

  /** `us` is the sample that a share `q` of the population reaches: at least that share is at most `us`, and
      less than that share is below it.  The share zero is reached by the smallest sample. */
  ghost predicate Reaches(samples: seq<nat>, q: real, us: nat) {
    && us in samples
    && (q > 0.0 ==>
          && |set i | 0 <= i < |samples| && samples[i] <= us| as real >= q * |samples| as real
          && (|set i | 0 <= i < |samples| && samples[i] < us| as real) < q * |samples| as real)
    && (q == 0.0 ==> forall i :: 0 <= i < |samples| ==> us <= samples[i])
  }

  /** The sample of the rank aimed at is the one that the share reaches. */
  lemma RankedReaches(samples: seq<nat>, q: real)
    requires 0.0 <= q <= 1.0 && |samples| > 0
    ensures Reaches(samples, q, RankedSample(samples, q))
  {
    var us := RankedSample(samples, q);
    var k := Rank(|samples|, q) - 1;
    RankCounts(samples, k);
    CountsAtMost(samples, us);
    RankShare(|samples|, q);
    hide Rank, Sum, Sort;
    if q == 0.0 { NoneLess(samples, us); }
  }

  /** The rank is the share of the count rounded up, and at least one. */
  lemma RankShare(count: nat, q: real)
    requires 0.0 <= q <= 1.0 && count > 0
    ensures q > 0.0 ==> Rank(count, q) as real >= q * count as real > (Rank(count, q) - 1) as real
    ensures q == 0.0 ==> Rank(count, q) == 1
  {
    var x := Scaled(count as real, q);
    assert x == q * count as real;
    if q > 0.0 { ScaledPositive(count as real, q); }
  }

  lemma ScaledPositive(n: real, q: real)
    requires n > 0.0 && q > 0.0
    ensures Scaled(n, q) > 0.0
  {
  }

  lemma CountsAtMost(samples: seq<nat>, c: nat)
    ensures Sum(samples, AtMost(c)) == |set i | 0 <= i < |samples| && samples[i] <= c|
    ensures Sum(samples, Less(c)) == |set i | 0 <= i < |samples| && samples[i] < c|
  {
    SumCounts(samples, |samples|, AtMost(c));
    SumCounts(samples, |samples|, Less(c));
    assert Positions(samples, |samples|, AtMost(c)) == set i | 0 <= i < |samples| && samples[i] <= c;
    assert Positions(samples, |samples|, Less(c)) == set i | 0 <= i < |samples| && samples[i] < c;
  }

  lemma NoneLess(samples: seq<nat>, c: nat)
    requires Sum(samples, Less(c)) == 0
    ensures forall i :: 0 <= i < |samples| ==> c <= samples[i]
  {
    forall i | 0 <= i < |samples| ensures c <= samples[i] { SumAtLeast(samples, i, Less(c)); }
  }

  /** A share is reached by one sample only. */
  lemma ReachesOne(samples: seq<nat>, q: real, us: nat, vs: nat)
    requires 0.0 <= q && Reaches(samples, q, us) && Reaches(samples, q, vs)
    ensures us == vs
  {
    if us < vs { FewerReach(samples, us, vs); }
    if vs < us { FewerReach(samples, vs, us); }
  }

  lemma FewerReach(samples: seq<nat>, us: nat, vs: nat)
    requires us < vs
    ensures |set i | 0 <= i < |samples| && samples[i] <= us| <= |set i | 0 <= i < |samples| && samples[i] < vs|
  {
    CountsAtMost(samples, us);
    CountsAtMost(samples, vs);
    SumDominated(samples, AtMost(us), Less(vs));
  }

  /** What every quantile query returns: nothing recorded gives zero, otherwise the lower bound of the bucket of
      the one sample that the share reaches. */
  lemma QuantileMeans(samples: seq<nat>, q: real, us: nat)
    requires 0.0 <= q <= 1.0 && (|samples| > 0 ==> Reaches(samples, q, us))
    ensures |samples| == 0 ==> QuantileOf(samples, q) == 0
    ensures |samples| > 0 ==> Used(Index(us)) && QuantileOf(samples, q) == LowerBound(Index(us))
  {
    hide Index, LowerBound, Reaches, RankedSample;
    if |samples| > 0 {
      IndexUsed(us);
      RankedReaches(samples, q);
      ReachesOne(samples, q, us, RankedSample(samples, q));
    }
  }

  /** A reported percentile is within an eighth of the sample it stands for exactly up to that size. */
  lemma QuantilePromise(samples: seq<nat>, q: real)
    requires 0.0 <= q <= 1.0 && |samples| > 0
    ensures var us := RankedSample(samples, q);
      && QuantileOf(samples, q) <= us
      && (8 * (us - QuantileOf(samples, q)) <= us <==> 7 * us <= 960 * Pow2(34))
  {
    hide Index, LowerBound, Pow2;
    PromiseExactly(RankedSample(samples, q));
    LowerBoundBelow(RankedSample(samples, q));
  }

  function MaxOf(samples: seq<nat>): (m: nat)
    ensures forall x :: x in samples ==> x <= m
    ensures if |samples| > 0 then m in samples else m == 0
  {
    if |samples| == 0 then 0
    else
      var n := |samples| - 1;
      assert samples == samples[..n] + [samples[n]];
      Max(MaxOf(samples[..n]), samples[n])
  }

  /** Percentiles never cross, whatever was recorded. */
  lemma QuantilesOrdered(samples: seq<nat>, p: real, q: real)
    requires 0.0 <= p <= q <= 1.0
    ensures QuantileOf(samples, p) <= QuantileOf(samples, q) <= MaxOf(samples)
  {
    if |samples| > 0 {
      RankedOrdered(samples, p, q);
      LowerBoundMonotone(RankedSample(samples, p), RankedSample(samples, q));
      LowerBoundBelow(RankedSample(samples, q));
    }
  }

  class Histogram {
    const buckets: array<nat>
    var count: nat
    var maxUs: nat
    ghost var samples: seq<nat>

    ghost predicate Valid()
      reads this, buckets
    {
      && buckets.Length == BUCKETS
      && count == |samples|
      && maxUs == MaxOf(samples)
      && (forall i :: 0 <= i < BUCKETS ==> buckets[i] == Sum(samples, InBucket(i)))
    }

    constructor ()
      ensures Valid() && samples == [] && fresh(buckets)
    {
      buckets := new nat[BUCKETS](_ => 0);
      count, maxUs, samples := 0, 0, [];
    }

    /** Records a duration in nanoseconds as saturated microseconds. */
    method Record(nanos: nat)
      requires Valid()
      modifies this, buckets
      ensures Valid() && samples == old(samples) + [Min(nanos / 1000, WORD - 1)]
    {
      var us: nat := Min(nanos / 1000, WORD - 1);
      forall i | 0 <= i < BUCKETS
        ensures Sum(samples + [us], InBucket(i)) == Sum(samples, InBucket(i)) + (if Index(us) == i then 1 else 0)
      {
        SumAppend(samples, us, InBucket(i));
      }
      assert (samples + [us])[..|samples|] == samples;
      buckets[Index(us)] := buckets[Index(us)] + 1;
      count := count + 1;
      maxUs := Max(maxUs, us);
      samples := samples + [us];
    }

    /** Every call stays off the gap indices and never falls through to `max_us`. */
    method Quantile(q: real) returns (us: nat)
      requires Valid() && 0.0 <= q <= 1.0
      ensures us == QuantileOf(samples, q)
    {
      hide Rank, MaxOf, LowerBound;
      if count == 0 { return 0; }
      var target := Rank(count, q);
      var cumulative := 0;
      AllBelowTop(samples, |samples|);
      for i := 0 to BUCKETS
        invariant cumulative == Sum(samples, BelowBucket(i)) < target
      {
        BelowGrows(samples, |samples|, i);
        cumulative := cumulative + buckets[i];
        if cumulative >= target {
          RankedBucket(samples, target, i);
          IndexUsed(Sort(samples, NatLe)[target - 1]);
          return LowerBound(i);
        }
      }
      assert false;
    }
  }

  datatype Stage = Queue | Tokenize | Forward | Total

  datatype StagePercentiles = StagePercentiles(p50: nat, p95: nat, p99: nat, max: nat, count: nat)

  /** The latency registry: one histogram and one running sum per stage. */
  class Metrics {
    const queue: Histogram
    const tokenize: Histogram
    const forward: Histogram
    const total: Histogram
    var sums: map<Stage, nat>

    function Of(stage: Stage): Histogram {
      match stage
      case Queue => queue
      case Tokenize => tokenize
      case Forward => forward
      case Total => total
    }

    ghost function Objects(): set<object> {
      {queue, tokenize, forward, total, queue.buckets, tokenize.buckets, forward.buckets, total.buckets}
    }

    ghost predicate Valid()
      reads this, Objects()
    {
      && sums.Keys == {Queue, Tokenize, Forward, Total}
      && (forall s :: Of(s).Valid())
      && (forall s, t :: s != t ==> Of(s) != Of(t) && Of(s).buckets != Of(t).buckets)
    }

    constructor ()
      ensures Valid() && forall s :: Of(s).samples == [] && sums[s] == 0
    {
      hide Histogram.Valid;
      queue := new Histogram();
      tokenize := new Histogram();
      forward := new Histogram();
      total := new Histogram();
      sums := map[Queue := 0, Tokenize := 0, Forward := 0, Total := 0];
    }

    /** A latency is recorded against its own stage and no other. */
    method RecordStage(stage: Stage, nanos: nat)
      requires Valid()
      modifies this, Objects()
      ensures Valid()
      ensures Of(stage).samples == old(Of(stage).samples) + [Min(nanos / 1000, WORD - 1)]
      ensures forall s :: s != stage ==> Of(s).samples == old(Of(s).samples)
      ensures sums == old(sums)[stage := old(sums[stage]) + nanos]
    {
      sums := sums[stage := sums[stage] + nanos];
      Of(stage).Record(nanos);
    }

    /** The reported percentiles of a stage are those of its sorted samples, and they are ordered. */
    method Percentiles(stage: Stage) returns (p: StagePercentiles)
      requires Valid()
      ensures var samples := Of(stage).samples;
        p == StagePercentiles(QuantileOf(samples, 0.5), QuantileOf(samples, 0.95), QuantileOf(samples, 0.99),
                              MaxOf(samples), |samples|)
      ensures p.p50 <= p.p95 <= p.p99 <= p.max
    {
      var h := Of(stage);
      var p50 := h.Quantile(0.5);
      var p95 := h.Quantile(0.95);
      var p99 := h.Quantile(0.99);
      QuantilesOrdered(h.samples, 0.5, 0.95);
      QuantilesOrdered(h.samples, 0.95, 0.99);
      p := StagePercentiles(p50, p95, p99, h.maxUs, h.count);
    }
  }
}
