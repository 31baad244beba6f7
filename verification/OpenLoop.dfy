/** The open-loop load driver: dispatching offered slots, accounting for what became of them, and the
    equations the recovery validator checks in its report. */
module OpenLoop {
  import opened Common
  import opened Sorting
  import opened OfferedRate

  /** What an RPC task returns. */
  datatype Completion = Completion(status: string, rtt: nat, within: bool)

  /** What became of one offered slot; `lag` is its dispatch lag in microseconds. */
  datatype Outcome = Initiated | DroppedLate | DroppedInFlight

  datatype Decision = Decision(outcome: Outcome, lag: nat, late: bool)

  // ----- counting by status -----

  function Get(counts: map<string, nat>, status: string): nat {
    if status in counts then counts[status] else 0
  }

  function Bump(counts: map<string, nat>, status: string): map<string, nat> {
    counts[status := Get(counts, status) + 1]
  }

  datatype Population = Any | Within | After | OkWithin

  predicate In(c: Completion, p: Population) {
    match p
    case Any => true
    case Within => c.within
    case After => !c.within
    case OkWithin => c.within && c.status == "OK"
  }

  /** Counts per status of the completions kept. */
  function Tally(h: seq<Completion>, p: Population): map<string, nat> {
    if |h| == 0 then map[] else
    var c := h[|h| - 1];
    var counts := Tally(h[..|h| - 1], p);
    if In(c, p) then Bump(counts, c.status) else counts
  }

  function Kept(p: Population): Completion -> nat {
    (c: Completion) => if In(c, p) then 1 else 0
  }

  function KeptAs(p: Population, status: string): Completion -> nat {
    (c: Completion) => if In(c, p) && c.status == status then 1 else 0
  }

  function Push(lists: map<string, seq<nat>>, status: string, rtt: nat): map<string, seq<nat>> {
    lists[status := (if status in lists then lists[status] else []) + [rtt]]
  }

  /** Round-trip times per status, in completion order. */
  function Rtts(h: seq<Completion>): map<string, seq<nat>> {
    if |h| == 0 then map[] else
    Push(Rtts(h[..|h| - 1]), h[|h| - 1].status, h[|h| - 1].rtt)
  }

  /** Round-trip times of the completions kept, in completion order. */
  function RttsKept(h: seq<Completion>, p: Population): seq<nat> {
    if |h| == 0 then [] else
    RttsKept(h[..|h| - 1], p) + (if In(h[|h| - 1], p) then [h[|h| - 1].rtt] else [])
  }

  lemma {:induction false} SumSplitsLast<T>(h: seq<T>, weight: T -> nat)
    requires |h| > 0
    ensures Sum(h, weight) == Sum(h[..|h| - 1], weight) + weight(h[|h| - 1])
  {
    SumToAgrees(h[..|h| - 1], h, |h| - 1, weight);
  }

  /** A tally holds, under each status, exactly how many kept completions had it. */
  lemma {:induction false} TallyCounts(h: seq<Completion>, p: Population, status: string)
    ensures Get(Tally(h, p), status) == Sum(h, KeptAs(p, status))
    ensures status in Tally(h, p) <==> Sum(h, KeptAs(p, status)) > 0
  {
    if |h| > 0 {
      TallyCounts(h[..|h| - 1], p, status);
      SumSplitsLast(h, KeptAs(p, status));
    }
  }

  /** The sum of a map's values, in whatever order they are visited. */
  ghost function Total(m: map<string, nat>): nat
    decreases |m|
  {
    if |m| == 0 then 0 else m[Pick(m)] + Total(m - {Pick(m)})
  }

  ghost function Pick(m: map<string, nat>): (k: string)
    requires |m| > 0
    ensures k in m
  {
    var k :| k in m; k
  }

  lemma {:induction false} TotalPicks(m: map<string, nat>, k: string)
    requires k in m
    ensures Total(m) == m[k] + Total(m - {k})
    decreases |m|
  {
    var j := Pick(m);
    if j != k {
      TotalPicks(m - {j}, k);
      TotalPicks(m - {k}, j);
      assert m - {j} - {k} == m - {k} - {j};
    }
  }

  lemma TotalBump(m: map<string, nat>, k: string)
    ensures Total(Bump(m, k)) == Total(m) + 1
  {
    var b := Bump(m, k);
    TotalPicks(b, k);
    assert b - {k} == m - {k};
    if k in m { TotalPicks(m, k); } else { assert m - {k} == m; }
  }

  /** A tally's values sum to the number of completions kept. */
  lemma {:induction false} TallyTotal(h: seq<Completion>, p: Population)
    ensures Total(Tally(h, p)) == Sum(h, Kept(p))
  {
    if |h| > 0 {
      TallyTotal(h[..|h| - 1], p);
      SumSplitsLast(h, Kept(p));
      TotalBump(Tally(h[..|h| - 1], p), h[|h| - 1].status);
    }
  }

  /** Every completion is within the plateau or after it, status by status. */
  lemma {:induction false} TallySplits(h: seq<Completion>, status: string)
    ensures Get(Tally(h, Any), status) == Get(Tally(h, Within), status) + Get(Tally(h, After), status)
    ensures status in Tally(h, Any) <==> status in Tally(h, Within) || status in Tally(h, After)
  {
    if |h| > 0 { TallySplits(h[..|h| - 1], status); }
  }

  lemma {:induction false} CountsSplit(h: seq<Completion>)
    ensures Sum(h, Kept(Within)) + Sum(h, Kept(After)) == |h|
  {
    if |h| > 0 {
      CountsSplit(h[..|h| - 1]);
      SumSplitsLast(h, Kept(Within));
      SumSplitsLast(h, Kept(After));
    }
  }

  lemma {:induction false} RttPopulations(h: seq<Completion>, status: string)
    ensures status in Rtts(h) <==> status in Tally(h, Any)
    ensures status in Rtts(h) ==> |Rtts(h)[status]| == Tally(h, Any)[status]
  {
    if |h| > 0 { RttPopulations(h[..|h| - 1], status); }
  }

  lemma {:induction false} OkPopulation(h: seq<Completion>)
    ensures |RttsKept(h, OkWithin)| == Get(Tally(h, Within), "OK")
  {
    if |h| > 0 { OkPopulation(h[..|h| - 1]); }
  }

  // ----- the fixed-bound RTT histogram -----

  const BOUNDS_US: seq<nat> := [
    250, 500, 1_000, 2_000, 4_000, 8_000, 16_000, 32_000, 64_000, 125_000, 250_000, 500_000,
    1_000_000, 2_000_000, 4_000_000, 8_000_000, 16_000_000, 32_000_000, 60_000_000]

  /** The first bound at or above the value, or the overflow bucket. */
  predicate Falls(us: nat, bucket: nat) {
    && bucket <= |BOUNDS_US|
    && (bucket < |BOUNDS_US| ==> us <= BOUNDS_US[bucket])
    && (bucket > 0 ==> BOUNDS_US[bucket - 1] < us)
  }

  function FallsIn(bucket: nat): nat -> nat {
    (us: nat) => if Falls(us, bucket) then 1 else 0
  }

  lemma FallsOnce(us: nat, a: nat, b: nat)
    requires Falls(us, a) && Falls(us, b)
    ensures a == b
  {
    if a < b { BoundsAscend(a, b - 1); }
    if b < a { BoundsAscend(b, a - 1); }
  }

  lemma {:induction false} BoundsAscend(a: nat, b: nat)
    requires a <= b < |BOUNDS_US|
    ensures BOUNDS_US[a] <= BOUNDS_US[b]
  {
    if a < b { BoundsAscend(a, b - 1); }
  }

  /** The fixed-bound histogram of a population: how many values fall into each bucket. */
  function Buckets(values: seq<nat>): (counts: seq<nat>)
    ensures |counts| == |BOUNDS_US| + 1
  {
    seq(|BOUNDS_US| + 1, b requires 0 <= b => Sum(values, FallsIn(b)))
  }

  /** Bucket `b` counts the values above the bound before it and up to its own. */
  lemma BucketReads(values: seq<nat>, b: nat)
    requires b <= |BOUNDS_US|
    ensures Buckets(values)[b] ==
            |set i | 0 <= i < |values| && (b == 0 || BOUNDS_US[b - 1] < values[i])
                     && (b == |BOUNDS_US| || values[i] <= BOUNDS_US[b])|
  {
    SumCounts(values, |values|, FallsIn(b));
    assert Positions(values, |values|, FallsIn(b)) ==
      set i | 0 <= i < |values| && (b == 0 || BOUNDS_US[b - 1] < values[i])
              && (b == |BOUNDS_US| || values[i] <= BOUNDS_US[b]);
  }

  function NoBuckets(): (counts: seq<nat>)
    ensures |counts| == |BOUNDS_US| + 1
  {
    seq(|BOUNDS_US| + 1, _ => 0)
  }

  lemma NothingFalls()
    ensures Buckets([]) == NoBuckets()
  {
    assert forall b :: 0 <= b <= |BOUNDS_US| ==> Buckets([])[b] == 0;
  }

  function AddBuckets(a: seq<nat>, b: seq<nat>): (sum: seq<nat>)
    requires |a| == |b|
    ensures |sum| == |a|
  {
    seq(|a|, i requires 0 <= i < |a| => a[i] + b[i])
  }

  /** Adding two histograms bucket by bucket gives the histogram of both populations. */
  lemma BucketsConcat(a: seq<nat>, b: seq<nat>)
    ensures Buckets(a + b) == AddBuckets(Buckets(a), Buckets(b))
  {
    hide Sum;
    forall i | 0 <= i <= |BOUNDS_US| ensures Buckets(a + b)[i] == Buckets(a)[i] + Buckets(b)[i] {
      SumConcat(a, b, FallsIn(i));
    }
  }

  /** One more value raises the count of its one bucket. */
  lemma BucketsAppend(values: seq<nat>, us: nat, bucket: nat)
    requires Falls(us, bucket)
    ensures Buckets(values + [us]) == Buckets(values)[bucket := Buckets(values)[bucket] + 1]
  {
    hide Sum;
    forall b | 0 <= b <= |BOUNDS_US|
      ensures Buckets(values + [us])[b] == Buckets(values)[b] + (if b == bucket then 1 else 0)
    {
      SumAppend(values, us, FallsIn(b));
      if Falls(us, b) { FallsOnce(us, b, bucket); }
    }
  }

  /** The first bound at or above the value, by a scan of the bounds. */
  method BucketOf(us: nat) returns (bucket: nat)
    ensures Falls(us, bucket)
  {
    bucket := 0;
    while bucket < |BOUNDS_US| && us > BOUNDS_US[bucket]
      invariant bucket <= |BOUNDS_US|
      invariant bucket > 0 ==> BOUNDS_US[bucket - 1] < us
    {
      bucket := bucket + 1;
    }
  }

  class Histogram {
    const counts: array<nat>
    ghost var values: seq<nat>

    ghost predicate Valid()
      reads this, counts
    {
      counts[..] == Buckets(values)
    }

    constructor ()
      ensures Valid() && values == [] && fresh(counts)
    {
      counts := new nat[|BOUNDS_US| + 1](_ => 0);
      values := [];
      new;
      NothingFalls();
    }

    method Observe(us: nat)
      requires Valid()
      modifies this, counts
      ensures Valid() && values == old(values) + [us]
    {
      hide Buckets;
      var bucket := BucketOf(us);
      BucketsAppend(values, us, bucket);
      assert counts.Length == |counts[..]| == |BOUNDS_US| + 1;
      counts[bucket] := counts[bucket] + 1;
      values := values + [us];
    }

    /** Merging adds the other histogram's population, wherever its buckets lie. */
    method Merge(other: Histogram)
      requires Valid() && other.Valid() && other != this && other.counts != counts
      modifies this, counts
      ensures Valid() && values == old(values) + other.values
    {
      hide Buckets;
      ghost var before, added := counts[..], other.counts[..];
      assert |before| == |added|;
      for b := 0 to counts.Length
        invariant forall k :: 0 <= k < b ==> counts[k] == before[k] + added[k]
        invariant forall k :: b <= k < counts.Length ==> counts[k] == before[k]
        invariant other.counts[..] == added && values == old(values)
      {
        assert other.counts[b] == added[b];
        counts[b] := counts[b] + other.counts[b];
      }
      assert counts[..] == AddBuckets(before, added);
      BucketsConcat(values, other.values);
      values := values + other.values;
    }
  }

  lemma {:induction false} SumConcat<T>(s: seq<T>, t: seq<T>, weight: T -> nat)
    ensures Sum(s + t, weight) == Sum(s, weight) + Sum(t, weight)
  {
    if |t| == 0 {
      assert s + t == s;
    } else {
      var n := |t| - 1;
      SumConcat(s, t[..n], weight);
      SumSplitsLast(t, weight);
      SumSplitsLast(s + t, weight);
      assert (s + t)[..|s + t| - 1] == s + t[..n];
    }
  }

  // ----- the results object -----

  function Chosen(o: Outcome): Decision -> nat {
    (d: Decision) => if d.outcome == o then 1 else 0
  }

  function LateWeight(d: Decision): nat { if d.late then 1 else 0 }

  function InitiatedLateWeight(d: Decision): nat { if d.late && d.outcome == Initiated then 1 else 0 }

  /** The lags of the decisions kept, in dispatch order. */
  function Lags(ds: seq<Decision>, o: Outcome): seq<nat> {
    if |ds| == 0 then [] else
    Lags(ds[..|ds| - 1], o) + (if ds[|ds| - 1].outcome == o then [ds[|ds| - 1].lag] else [])
  }

  lemma {:induction false} LagPopulation(ds: seq<Decision>, o: Outcome)
    ensures |Lags(ds, o)| == Sum(ds, Chosen(o))
  {
    if |ds| > 0 {
      LagPopulation(ds[..|ds| - 1], o);
      SumSplitsLast(ds, Chosen(o));
    }
  }

  /** Every decision initiates its slot or drops it. */
  lemma {:induction false} DecisionsSplit(ds: seq<Decision>)
    ensures Sum(ds, Chosen(Initiated)) + Sum(ds, Chosen(DroppedLate)) + Sum(ds, Chosen(DroppedInFlight)) == |ds|
  {
    if |ds| > 0 {
      DecisionsSplit(ds[..|ds| - 1]);
      SumSplitsLast(ds, Chosen(Initiated));
      SumSplitsLast(ds, Chosen(DroppedLate));
      SumSplitsLast(ds, Chosen(DroppedInFlight));
    }
  }

  lemma DecideOne(ds: seq<Decision>, d: Decision, o: Outcome)
    ensures Lags(ds + [d], o) == Lags(ds, o) + (if d.outcome == o then [d.lag] else [])
  {
    assert (ds + [d])[..|ds|] == ds;
  }

  lemma CompleteOne(h: seq<Completion>, c: Completion, p: Population)
    ensures Sum(h + [c], Kept(p)) == Sum(h, Kept(p)) + Kept(p)(c)
    ensures Tally(h + [c], p) == (if In(c, p) then Bump(Tally(h, p), c.status) else Tally(h, p))
    ensures RttsKept(h + [c], p) == RttsKept(h, p) + (if In(c, p) then [c.rtt] else [])
    ensures Rtts(h + [c]) == Push(Rtts(h), c.status, c.rtt)
  {
    assert (h + [c])[..|h|] == h;
    SumAppend(h, c, Kept(p));
  }

  /** The accounting object.  `decisions` and `completions` are what actually happened; `Valid` says
      every counter and list is the corresponding reading of that history. */
  class OpenLoopResults {
    const offeredSlots: nat
    var initiated: nat
    var completed: nat
    var completedWithin: nat
    var completedAfter: nat
    var droppedInFlight: nat
    var droppedLate: nat
    var dispatchLate: nat
    var initiatedLate: nat
    var statuses: map<string, nat>
    var statusesWithin: map<string, nat>
    var statusesAfter: map<string, nat>
    var rttByStatus: map<string, seq<nat>>
    var okWithinRtt: seq<nat>
    var dispatchLags: seq<nat>
    var droppedInFlightLags: seq<nat>
    var droppedLateLags: seq<nat>
    const histogram: Histogram
    ghost var decisions: seq<Decision>
    ghost var completions: seq<Completion>

    ghost predicate DecisionsCounted(ds: seq<Decision>)
      reads `initiated, `droppedLate, `droppedInFlight, `dispatchLate, `initiatedLate
    {
      && initiated == Sum(ds, Chosen(Initiated))
      && droppedLate == Sum(ds, Chosen(DroppedLate))
      && droppedInFlight == Sum(ds, Chosen(DroppedInFlight))
      && dispatchLate == Sum(ds, LateWeight)
      && initiatedLate == Sum(ds, InitiatedLateWeight)
    }

    ghost predicate LagsListed(ds: seq<Decision>)
      reads `dispatchLags, `droppedLateLags, `droppedInFlightLags
    {
      && dispatchLags == Lags(ds, Initiated)
      && droppedLateLags == Lags(ds, DroppedLate)
      && droppedInFlightLags == Lags(ds, DroppedInFlight)
    }

    ghost predicate CompletionsCounted(h: seq<Completion>)
      reads `completed, `completedWithin, `completedAfter, `statuses, `statusesWithin, `statusesAfter
    {
      && completed == |h|
      && completedWithin == Sum(h, Kept(Within))
      && completedAfter == Sum(h, Kept(After))
      && statuses == Tally(h, Any)
      && statusesWithin == Tally(h, Within)
      && statusesAfter == Tally(h, After)
    }

    ghost predicate RttsListed(h: seq<Completion>)
      reads `rttByStatus, `okWithinRtt, histogram, histogram.counts
    {
      && rttByStatus == Rtts(h)
      && okWithinRtt == RttsKept(h, OkWithin)
      && histogram.Valid() && histogram.values == RttsKept(h, OkWithin)
    }

    ghost predicate Valid()
      reads this, histogram, histogram.counts
    {
      DecisionsCounted(decisions) && LagsListed(decisions) && CompletionsCounted(completions) && RttsListed(completions)
    }

    constructor (offeredSlots: nat)
      ensures Valid() && decisions == [] && completions == [] && this.offeredSlots == offeredSlots
      ensures fresh(histogram) && fresh(histogram.counts)
    {
      this.offeredSlots := offeredSlots;
      initiated, completed, completedWithin, completedAfter := 0, 0, 0, 0;
      droppedInFlight, droppedLate, dispatchLate, initiatedLate := 0, 0, 0, 0;
      statuses, statusesWithin, statusesAfter, rttByStatus := map[], map[], map[], map[];
      okWithinRtt, dispatchLags, droppedInFlightLags, droppedLateLags := [], [], [], [];
      histogram := new Histogram();
      decisions, completions := [], [];
    }

    method CountCompletion(c: Completion, ghost h: seq<Completion>)
      requires CompletionsCounted(h)
      modifies `completed, `completedWithin, `completedAfter, `statuses, `statusesWithin, `statusesAfter
      ensures CompletionsCounted(h + [c])
    {
      CompleteOne(h, c, Any);
      CompleteOne(h, c, Within);
      CompleteOne(h, c, After);
      completed := completed + 1;
      statuses := Bump(statuses, c.status);
      if c.within {
        completedWithin := completedWithin + 1;
        statusesWithin := Bump(statusesWithin, c.status);
      } else {
        completedAfter := completedAfter + 1;
        statusesAfter := Bump(statusesAfter, c.status);
      }
    }

    method ListRtt(c: Completion, ghost h: seq<Completion>)
      requires RttsListed(h)
      modifies `rttByStatus, `okWithinRtt, histogram, histogram.counts
      ensures RttsListed(h + [c])
    {
      CompleteOne(h, c, OkWithin);
      rttByStatus := Push(rttByStatus, c.status, c.rtt);
      if c.within && c.status == "OK" {
        histogram.Observe(c.rtt);
        okWithinRtt := okWithinRtt + [c.rtt];
      }
    }

    method RecordCompletion(c: Completion)
      requires Valid()
      modifies this, histogram, histogram.counts
      ensures Valid() && completions == old(completions) + [c] && decisions == old(decisions)
    {
      hide DecisionsCounted, LagsListed, CompletionsCounted, RttsListed;
      ListRtt(c, completions);
      CountCompletion(c, completions);
      completions := completions + [c];
    }

    method CountDecision(d: Decision, ghost ds: seq<Decision>)
      requires DecisionsCounted(ds)
      modifies `initiated, `droppedLate, `droppedInFlight, `dispatchLate, `initiatedLate
      ensures DecisionsCounted(ds + [d])
    {
      SumAppend(ds, d, Chosen(Initiated));
      SumAppend(ds, d, Chosen(DroppedLate));
      SumAppend(ds, d, Chosen(DroppedInFlight));
      SumAppend(ds, d, LateWeight);
      SumAppend(ds, d, InitiatedLateWeight);
      if d.late {
        dispatchLate := dispatchLate + 1;
      }
      match d.outcome
      case DroppedLate =>
        droppedLate := droppedLate + 1;
      case DroppedInFlight =>
        droppedInFlight := droppedInFlight + 1;
      case Initiated =>
        initiated := initiated + 1;
        if d.late {
          initiatedLate := initiatedLate + 1;
        }
    }

    method ListLag(d: Decision, ghost ds: seq<Decision>)
      requires LagsListed(ds)
      modifies `dispatchLags, `droppedLateLags, `droppedInFlightLags
      ensures LagsListed(ds + [d])
    {
      DecideOne(ds, d, Initiated);
      DecideOne(ds, d, DroppedLate);
      DecideOne(ds, d, DroppedInFlight);
      match d.outcome
      case DroppedLate =>
        droppedLateLags := droppedLateLags + [d.lag];
      case DroppedInFlight =>
        droppedInFlightLags := droppedInFlightLags + [d.lag];
      case Initiated =>
        dispatchLags := dispatchLags + [d.lag];
    }

    /** The bookkeeping of one offered slot in the dispatch loop. */
    method RecordDecision(d: Decision)
      requires Valid()
      modifies this
      ensures Valid() && decisions == old(decisions) + [d] && completions == old(completions)
    {
      hide DecisionsCounted, LagsListed, CompletionsCounted, RttsListed;
      CountDecision(d, decisions);
      ListLag(d, decisions);
      decisions := decisions + [d];
    }

    /** Everything listed, sorted, and every offered slot and RPC accounted for. */
    ghost predicate Finalized()
      reads this, histogram, histogram.counts
    {
      && histogram.Valid() && histogram.values == RttsKept(completions, OkWithin)
      && DecisionsCounted(decisions) && CompletionsCounted(completions)
      && dispatchLags == Sort(Lags(decisions, Initiated), NatLe)
      && droppedLateLags == Sort(Lags(decisions, DroppedLate), NatLe)
      && droppedInFlightLags == Sort(Lags(decisions, DroppedInFlight), NatLe)
      && rttByStatus == SortedRtts(completions)
      && okWithinRtt == Sort(RttsKept(completions, OkWithin), NatLe)
      && Balanced(offeredSlots, decisions, completions)
    }

    method SortLags(ghost ds: seq<Decision>)
      requires LagsListed(ds)
      modifies `dispatchLags, `droppedLateLags, `droppedInFlightLags
      ensures dispatchLags == Sort(Lags(ds, Initiated), NatLe)
      ensures droppedLateLags == Sort(Lags(ds, DroppedLate), NatLe)
      ensures droppedInFlightLags == Sort(Lags(ds, DroppedInFlight), NatLe)
    {
      hide Sort, Lags;
      dispatchLags := Sort(dispatchLags, NatLe);
      droppedInFlightLags := Sort(droppedInFlightLags, NatLe);
      droppedLateLags := Sort(droppedLateLags, NatLe);
    }

    method SortRtts(ghost h: seq<Completion>)
      requires RttsListed(h)
      modifies `rttByStatus, `okWithinRtt
      ensures rttByStatus == SortedRtts(h) && okWithinRtt == Sort(RttsKept(h, OkWithin), NatLe)
    {
      hide Sort, Rtts, RttsKept;
      rttByStatus := map status | status in rttByStatus :: Sort(rttByStatus[status], NatLe);
      okWithinRtt := Sort(okWithinRtt, NatLe);
    }

    /** The three assertions of `finalize` hold whenever every slot was decided and every RPC joined. */
    method Finalize()
      requires Valid() && Balanced(offeredSlots, decisions, completions)
      modifies `dispatchLags, `droppedLateLags, `droppedInFlightLags, `rttByStatus, `okWithinRtt
      ensures Finalized()
    {
      hide Sum, Tally, Lags, RttsKept, Rtts, SortedRtts, Sort;
      SortLags(decisions);
      SortRtts(completions);
      DecisionsSplit(decisions);
      CountsSplit(completions);
      assert offeredSlots == initiated + (droppedInFlight + droppedLate);
      assert initiated == completed;
      assert completed == completedWithin + completedAfter;
    }

    /** The accounting part of the JSON report. */
    method ToReport() returns (r: Report)
      requires Finalized()
      ensures r == ReportOf(offeredSlots, decisions, completions)
    {
      r := Report(offeredSlots, initiated, completed, completedWithin, completedAfter, droppedInFlight, droppedLate,
                  statusesWithin, statusesAfter, statuses, okWithinRtt, rttByStatus, dispatchLags);
    }
  }

  /** Every offered slot has a decision and every initiated RPC has a completion. */
  ghost predicate Balanced(offered: nat, ds: seq<Decision>, h: seq<Completion>) {
    |ds| == offered && |h| == Sum(ds, Chosen(Initiated))
  }

  function SortedRtts(h: seq<Completion>): map<string, seq<nat>> {
    map status | status in Rtts(h) :: Sort(Rtts(h)[status], NatLe)
  }

  // ----- the report and the recovery validator's equations -----

  datatype Report = Report(
    offered: nat, initiated: nat, completed: nat, within: nat, drained: nat,
    droppedInFlight: nat, droppedLate: nat,
    withinStatuses: map<string, nat>, drainStatuses: map<string, nat>, totalStatuses: map<string, nat>,
    successful: seq<nat>, rttByStatus: map<string, seq<nat>>, dispatchLags: seq<nat>)

  function ReportOf(offered: nat, ds: seq<Decision>, h: seq<Completion>): Report {
    Report(offered, Sum(ds, Chosen(Initiated)), |h|, Sum(h, Kept(Within)), Sum(h, Kept(After)),
           Sum(ds, Chosen(DroppedInFlight)), Sum(ds, Chosen(DroppedLate)),
           Tally(h, Within), Tally(h, After), Tally(h, Any),
           Sort(RttsKept(h, OkWithin), NatLe), SortedRtts(h), Sort(Lags(ds, Initiated), NatLe))
  }

  // ----- what the report says, position by position -----

  function RttAs(p: Population, us: nat): Completion -> nat {
    (c: Completion) => if In(c, p) && c.rtt == us then 1 else 0
  }

  function RttUnder(status: string, us: nat): Completion -> nat {
    (c: Completion) => if c.status == status && c.rtt == us then 1 else 0
  }

  function LagAs(o: Outcome, us: nat): Decision -> nat {
    (d: Decision) => if d.outcome == o && d.lag == us then 1 else 0
  }

  lemma {:induction false} RttsKeptCount(h: seq<Completion>, p: Population, us: nat)
    ensures multiset(RttsKept(h, p))[us] == Sum(h, RttAs(p, us))
  {
    if |h| > 0 {
      RttsKeptCount(h[..|h| - 1], p, us);
      SumSplitsLast(h, RttAs(p, us));
    }
  }

  lemma {:induction false} RttsCount(h: seq<Completion>, status: string, us: nat)
    ensures status in Rtts(h) ==> multiset(Rtts(h)[status])[us] == Sum(h, RttUnder(status, us))
    ensures status !in Rtts(h) ==> Sum(h, RttUnder(status, us)) == 0
  {
    if |h| > 0 {
      RttsCount(h[..|h| - 1], status, us);
      SumSplitsLast(h, RttUnder(status, us));
    }
  }

  lemma {:induction false} LagsCount(ds: seq<Decision>, o: Outcome, us: nat)
    ensures multiset(Lags(ds, o))[us] == Sum(ds, LagAs(o, us))
  {
    if |ds| > 0 {
      LagsCount(ds[..|ds| - 1], o, us);
      SumSplitsLast(ds, LagAs(o, us));
    }
  }

  lemma SortedCount(values: seq<nat>, us: nat)
    ensures multiset(Sort<nat>(values, NatLe))[us] == multiset(values)[us]
  {
    NatLeTotal();
    SortSorts(values, NatLe);
  }

  lemma SumIs<T>(s: seq<T>, weight: T -> nat, at: set<int>)
    requires forall i :: 0 <= i < |s| ==> weight(s[i]) <= 1
    requires forall i :: i in at <==> 0 <= i < |s| && weight(s[i]) == 1
    ensures Sum(s, weight) == |at|
  {
    SumCounts(s, |s|, weight);
    assert Positions(s, |s|, weight) == at;
  }

  lemma OutcomeCounts(ds: seq<Decision>, o: Outcome, us: nat)
    ensures Sum(ds, Chosen(o)) == |set i | 0 <= i < |ds| && ds[i].outcome == o|
    ensures multiset(Lags(ds, o))[us] == |set i | 0 <= i < |ds| && ds[i].outcome == o && ds[i].lag == us|
  {
    SumIs(ds, Chosen(o), set i | 0 <= i < |ds| && ds[i].outcome == o);
    SumIs(ds, LagAs(o, us), set i | 0 <= i < |ds| && ds[i].outcome == o && ds[i].lag == us);
    LagsCount(ds, o, us);
  }

  /** Every number of the dispatch side of the report counts decisions... */
  lemma ReportDecisions(offered: nat, ds: seq<Decision>, h: seq<Completion>, us: nat)
    ensures var r := ReportOf(offered, ds, h);
      && r.offered == offered
      && r.initiated == |set i | 0 <= i < |ds| && ds[i].outcome == Initiated|
      && r.droppedLate == |set i | 0 <= i < |ds| && ds[i].outcome == DroppedLate|
      && r.droppedInFlight == |set i | 0 <= i < |ds| && ds[i].outcome == DroppedInFlight|
      && multiset(r.dispatchLags)[us] == |set i | 0 <= i < |ds| && ds[i].outcome == Initiated && ds[i].lag == us|
  {
    OutcomeCounts(ds, Initiated, us);
    OutcomeCounts(ds, DroppedLate, us);
    OutcomeCounts(ds, DroppedInFlight, us);
    hide Sum, Sort, Lags, Tally, RttsKept, SortedRtts;
    SortedCount(Lags(ds, Initiated), us);
  }

  lemma LateCounts(ds: seq<Decision>)
    ensures Sum(ds, LateWeight) == |set i | 0 <= i < |ds| && ds[i].late|
    ensures Sum(ds, InitiatedLateWeight) == |set i | 0 <= i < |ds| && ds[i].late && ds[i].outcome == Initiated|
  {
    SumIs(ds, LateWeight, set i | 0 <= i < |ds| && ds[i].late);
    SumIs(ds, InitiatedLateWeight, set i | 0 <= i < |ds| && ds[i].late && ds[i].outcome == Initiated);
  }

  lemma StatusCounts(h: seq<Completion>, s: string)
    ensures Get(Tally(h, Within), s) == |set i | 0 <= i < |h| && h[i].within && h[i].status == s|
    ensures Get(Tally(h, After), s) == |set i | 0 <= i < |h| && !h[i].within && h[i].status == s|
    ensures Get(Tally(h, Any), s) == |set i | 0 <= i < |h| && h[i].status == s|
  {
    TallyCounts(h, Within, s);
    TallyCounts(h, After, s);
    TallyCounts(h, Any, s);
    hide Tally, Get, SumTo;
    SumIs(h, KeptAs(Within, s), set i | 0 <= i < |h| && h[i].within && h[i].status == s);
    SumIs(h, KeptAs(After, s), set i | 0 <= i < |h| && !h[i].within && h[i].status == s);
    SumIs(h, KeptAs(Any, s), set i | 0 <= i < |h| && h[i].status == s);
  }

  lemma PlateauCounts(h: seq<Completion>)
    ensures Sum(h, Kept(Within)) == |set i | 0 <= i < |h| && h[i].within|
    ensures Sum(h, Kept(After)) == |set i | 0 <= i < |h| && !h[i].within|
  {
    SumIs(h, Kept(Within), set i | 0 <= i < |h| && h[i].within);
    SumIs(h, Kept(After), set i | 0 <= i < |h| && !h[i].within);
  }

  lemma RttCounts(h: seq<Completion>, s: string, us: nat)
    ensures multiset(RttsKept(h, OkWithin))[us]
         == |set i | 0 <= i < |h| && h[i].within && h[i].status == "OK" && h[i].rtt == us|
    ensures (if s in Rtts(h) then multiset(Rtts(h)[s])[us] else 0)
         == |set i | 0 <= i < |h| && h[i].status == s && h[i].rtt == us|
  {
    RttsKeptCount(h, OkWithin, us);
    RttsCount(h, s, us);
    hide RttsKept, Rtts, SumTo;
    SumIs(h, RttAs(OkWithin, us), set i | 0 <= i < |h| && h[i].within && h[i].status == "OK" && h[i].rtt == us);
    SumIs(h, RttUnder(s, us), set i | 0 <= i < |h| && h[i].status == s && h[i].rtt == us);
  }

  /** ...and every number of the completion side counts completions. */
  lemma ReportCompletions(offered: nat, ds: seq<Decision>, h: seq<Completion>, s: string, us: nat)
    ensures var r := ReportOf(offered, ds, h);
      && r.completed == |h|
      && r.within == |set i | 0 <= i < |h| && h[i].within|
      && r.drained == |set i | 0 <= i < |h| && !h[i].within|
      && Get(r.withinStatuses, s) == |set i | 0 <= i < |h| && h[i].within && h[i].status == s|
      && Get(r.drainStatuses, s) == |set i | 0 <= i < |h| && !h[i].within && h[i].status == s|
      && Get(r.totalStatuses, s) == |set i | 0 <= i < |h| && h[i].status == s|
      && multiset(r.successful)[us] == |set i | 0 <= i < |h| && h[i].within && h[i].status == "OK" && h[i].rtt == us|
      && (if s in r.rttByStatus then multiset(r.rttByStatus[s])[us] else 0)
           == |set i | 0 <= i < |h| && h[i].status == s && h[i].rtt == us|
  {
    PlateauCounts(h);
    StatusCounts(h, s);
    RttCounts(h, s, us);
    hide Sum, Sort, Tally, Rtts, RttsKept, Get, Lags;
    SortedCount(RttsKept(h, OkWithin), us);
    if s in Rtts(h) { SortedCount(Rtts(h)[s], us); }
  }

  /** The validator's requirements, in the order it makes them. */
  datatype Check =
    | OfferedSlots | OfferedAccounting | InitiatedCompleted | PlateauDrain | NoDrops
    | WithinCounts | DrainCounts | TotalCounts | AllowedStatuses
    | SuccessfulSorted | SuccessfulPopulation | RttsSorted | RttPopulation | RttTotal
    | LagsSorted | LagCount | LagP99

  function AddCounts(a: map<string, nat>, b: map<string, nat>): map<string, nat> {
    map status | status in a.Keys + b.Keys :: Get(a, status) + Get(b, status)
  }

  predicate Sorted(values: seq<nat>) {
    forall i, j :: 0 <= i < j < |values| ==> values[i] <= values[j]
  }

  /** The value of rank ceil(0.99 n), and at least rank one, of the sorted values. */
  function NearestRank99(values: seq<nat>): nat
    requires |values| > 0
  {
    SortLength(values);
    Sort(values, NatLe)[Max(1, (99 * |values| + 99) / 100) - 1]
  }

  lemma SortLength(values: seq<nat>)
    ensures |Sort(values, NatLe)| == |values|
  {
    NatLeTotal();
    SortSorts(values, NatLe);
  }

  function AtMost(limit: nat): nat -> nat { (us: nat) => if us <= limit then 1 else 0 }

  lemma RankReached(n: nat, m: nat)
    requires 0 < n && m <= n
    ensures m > Max(1, (99 * n + 99) / 100) - 1 <==> 100 * (n - m) <= n
  {
  }

  lemma CountedByRank(s: seq<nat>, k: nat, limit: nat)
    requires SortedBy(s, NatLe) && k < |s|
    ensures s[k] <= limit <==> Sum(s, AtMost(limit)) > k
    ensures Sum(s, AtMost(limit)) <= |s|
  {
    forall i, j | 0 <= i < j < |s| ensures AtMost(limit)(s[i]) >= AtMost(limit)(s[j]) {
      assert NatLe(s[i], s[j]);
    }
    PrefixCount(s, |s|, AtMost(limit), k);
  }

  /** A population meets a p99 limit exactly when at most one value in a hundred is above it. */
  lemma NearestRankMeets(values: seq<nat>, limit: nat)
    requires |values| > 0
    ensures NearestRank99(values) <= limit <==> 100 * (|values| - Sum(values, AtMost(limit))) <= |values|
  {
    hide Sort, Sum, AtMost, SortedBy;
    NatLeTotal();
    SortSorts(values, NatLe);
    SortKeepsSum(values, NatLe, AtMost(limit));
    CountedByRank(Sort(values, NatLe), Max(1, (99 * |values| + 99) / 100) - 1, limit);
    RankReached(|values|, Sum(values, AtMost(limit)));
  }

  /** Initiated slots dispatched later than the limit. */
  function SlowWeight(limit: nat): Decision -> nat {
    (d: Decision) => if d.outcome == Initiated && d.lag > limit then 1 else 0
  }

  lemma {:induction false} LagsAtMost(ds: seq<Decision>, limit: nat)
    ensures Sum(Lags(ds, Initiated), AtMost(limit)) + Sum(ds, SlowWeight(limit)) == Sum(ds, Chosen(Initiated))
  {
    if |ds| > 0 {
      var n := |ds| - 1;
      LagsAtMost(ds[..n], limit);
      SumSplitsLast(ds, SlowWeight(limit));
      SumSplitsLast(ds, Chosen(Initiated));
      if ds[n].outcome == Initiated {
        SumAppend(Lags(ds[..n], Initiated), ds[n].lag, AtMost(limit));
      } else {
        assert Lags(ds[..n], Initiated) + [] == Lags(ds[..n], Initiated);
      }
    }
  }

  predicate MeetsLagGate(lags: seq<nat>, limit: nat) {
    |lags| > 0 && NearestRank99(lags) <= limit
  }

  /** The dispatch-lag gate of a report, in terms of what happened. */
  lemma LagGate(ds: seq<Decision>, limit: nat)
    ensures MeetsLagGate(Sort(Lags(ds, Initiated), NatLe), limit) <==>
            0 < Sum(ds, Chosen(Initiated)) && 100 * Sum(ds, SlowWeight(limit)) <= Sum(ds, Chosen(Initiated))
  {
    hide Sort, Sum, Lags, NearestRank99;
    var lags := Lags(ds, Initiated);
    LagPopulation(ds, Initiated);
    SortLength(lags);
    SortKeepsSum(lags, NatLe, AtMost(limit));
    LagsAtMost(ds, limit);
    if |lags| > 0 { NearestRankMeets(Sort(lags, NatLe), limit); }
  }

  /** Pre and post phases may only see OK; overload and probes may also be shed. */
  predicate Allowed(status: string, steady: bool) {
    status == "OK" || (!steady && status == "GRPC_RESOURCEEXHAUSTED")
  }

  ghost predicate Holds(check: Check, r: Report, expectedSlots: nat, steady: bool, maxLagUs: nat) {
    match check
    case OfferedSlots => r.offered == expectedSlots
    case OfferedAccounting => r.offered == r.initiated + r.droppedInFlight + r.droppedLate
    case InitiatedCompleted => r.initiated == r.completed
    case PlateauDrain => r.completed == r.within + r.drained
    case NoDrops => r.droppedInFlight == 0 && r.droppedLate == 0
    case WithinCounts => Total(r.withinStatuses) == r.within
    case DrainCounts => Total(r.drainStatuses) == r.drained
    case TotalCounts => AddCounts(r.withinStatuses, r.drainStatuses) == r.totalStatuses
    case AllowedStatuses => forall s :: s in r.totalStatuses && r.totalStatuses[s] > 0 ==> Allowed(s, steady)
    case SuccessfulSorted => Sorted(r.successful)
    case SuccessfulPopulation => |r.successful| == Get(r.withinStatuses, "OK")
    case RttsSorted => forall s :: s in r.rttByStatus ==> Sorted(r.rttByStatus[s])
    case RttPopulation => forall s :: s in r.rttByStatus ==> |r.rttByStatus[s]| == Get(r.totalStatuses, s)
    case RttTotal => Total(map s | s in r.rttByStatus :: |r.rttByStatus[s]|) == r.completed
    case LagsSorted => Sorted(r.dispatchLags)
    case LagCount => |r.dispatchLags| == r.initiated
    case LagP99 => MeetsLagGate(r.dispatchLags, maxLagUs)
  }

  /** The report is accepted when no requirement fails. */
  ghost predicate Accepted(r: Report, expectedSlots: nat, steady: bool, maxLagUs: nat) {
    forall check :: Holds(check, r, expectedSlots, steady, maxLagUs)
  }

  lemma SortIsSorted(values: seq<nat>)
    ensures Sorted(Sort(values, NatLe)) && |Sort(values, NatLe)| == |values|
  {
    NatLeTotal();
    SortSorts(values, NatLe);
    assert forall i, j :: 0 <= i < j < |values| ==> NatLe(Sort(values, NatLe)[i], Sort(values, NatLe)[j]);
  }

  lemma StatusEquations(h: seq<Completion>)
    ensures Total(Tally(h, Within)) == Sum(h, Kept(Within))
    ensures Total(Tally(h, After)) == Sum(h, Kept(After))
    ensures AddCounts(Tally(h, Within), Tally(h, After)) == Tally(h, Any)
  {
    TallyTotal(h, Within);
    TallyTotal(h, After);
    hide Tally, Total, Sum;
    forall s ensures s in Tally(h, Any) <==> s in Tally(h, Within) || s in Tally(h, After)
      ensures Get(Tally(h, Any), s) == Get(Tally(h, Within), s) + Get(Tally(h, After), s)
    {
      TallySplits(h, s);
    }
  }

  lemma RttEquations(h: seq<Completion>)
    ensures var rtts := SortedRtts(h);
      && (forall s :: s in rtts ==> Sorted(rtts[s]) && |rtts[s]| == Get(Tally(h, Any), s))
      && Total(map s | s in rtts :: |rtts[s]|) == |h|
    ensures var ok := Sort(RttsKept(h, OkWithin), NatLe); Sorted(ok) && |ok| == Get(Tally(h, Within), "OK")
  {
    TallyTotal(h, Any);
    KeptAll(h);
    SortIsSorted(RttsKept(h, OkWithin));
    OkPopulation(h);
    hide Sum, Tally, Total, Sort, SortedRtts, RttsKept, Sorted, Get;
    var rtts := SortedRtts(h);
    forall s ensures s in rtts <==> s in Tally(h, Any)
      ensures s in rtts ==> Sorted(rtts[s]) && |rtts[s]| == Tally(h, Any)[s] == Get(Tally(h, Any), s)
    {
      RttUnderStatus(h, s);
    }
    assert (map s | s in rtts :: |rtts[s]|) == Tally(h, Any);
  }

  lemma RttUnderStatus(h: seq<Completion>, s: string)
    ensures s in SortedRtts(h) <==> s in Tally(h, Any)
    ensures s in SortedRtts(h) ==>
              Sorted(SortedRtts(h)[s]) && |SortedRtts(h)[s]| == Tally(h, Any)[s] == Get(Tally(h, Any), s)
  {
    RttPopulations(h, s);
    if s in Rtts(h) { SortIsSorted(Rtts(h)[s]); }
    hide Sort, Sorted, Tally, Rtts;
  }

  lemma {:induction false} KeptAll(h: seq<Completion>)
    ensures Sum(h, Kept(Any)) == |h|
  {
    if |h| > 0 {
      KeptAll(h[..|h| - 1]);
      SumSplitsLast(h, Kept(Any));
    }
  }

  /** A finished run can fail the validator in four ways only, each outside the driver's bookkeeping: the
      plan expected another slot count, a slot was dropped, the target answered with a status the phase
      does not allow, or nothing was initiated or more than one slot in a hundred was dispatched later than
      the limit.  Every other equation always holds. */
  lemma RecoveryAcceptsExactly(
    offered: nat, ds: seq<Decision>, h: seq<Completion>, expectedSlots: nat, steady: bool, maxLagUs: nat)
    requires Balanced(offered, ds, h)
    ensures Accepted(ReportOf(offered, ds, h), expectedSlots, steady, maxLagUs) <==>
      && expectedSlots == offered
      && Sum(ds, Chosen(DroppedLate)) == 0 && Sum(ds, Chosen(DroppedInFlight)) == 0
      && (forall i :: 0 <= i < |h| ==>
            h[i].status == "OK" || (!steady && h[i].status == "GRPC_RESOURCEEXHAUSTED"))
      && 0 < Sum(ds, Chosen(Initiated)) && 100 * Sum(ds, SlowWeight(maxLagUs)) <= Sum(ds, Chosen(Initiated))
  {
    hide Holds, Sum, ReportOf;
    forall check: Check | !check.OfferedSlots? && !check.NoDrops? && !check.AllowedStatuses? && !check.LagP99?
      ensures Holds(check, ReportOf(offered, ds, h), expectedSlots, steady, maxLagUs)
    {
      BookkeepingHolds(offered, ds, h, expectedSlots, steady, maxLagUs, check);
    }
    OpenChecks(offered, ds, h, expectedSlots, steady, maxLagUs);
  }

  lemma BookkeepingHolds(offered: nat, ds: seq<Decision>, h: seq<Completion>, expectedSlots: nat, steady: bool,
                         maxLagUs: nat, check: Check)
    requires Balanced(offered, ds, h)
    requires !check.OfferedSlots? && !check.NoDrops? && !check.AllowedStatuses? && !check.LagP99?
    ensures Holds(check, ReportOf(offered, ds, h), expectedSlots, steady, maxLagUs)
  {
    DecisionsSplit(ds);
    CountsSplit(h);
    StatusEquations(h);
    RttEquations(h);
    SortIsSorted(Lags(ds, Initiated));
    LagPopulation(ds, Initiated);
    hide Sum, Tally, Total, Sort, SortedRtts, Lags, RttsKept;
  }

  lemma OpenChecks(offered: nat, ds: seq<Decision>, h: seq<Completion>, expectedSlots: nat, steady: bool, maxLagUs: nat)
    ensures var r := ReportOf(offered, ds, h);
      && (Holds(OfferedSlots, r, expectedSlots, steady, maxLagUs) <==> expectedSlots == offered)
      && (Holds(NoDrops, r, expectedSlots, steady, maxLagUs) <==>
            Sum(ds, Chosen(DroppedLate)) == 0 && Sum(ds, Chosen(DroppedInFlight)) == 0)
      && (Holds(AllowedStatuses, r, expectedSlots, steady, maxLagUs) <==>
            forall i :: 0 <= i < |h| ==> Allowed(h[i].status, steady))
      && (Holds(LagP99, r, expectedSlots, steady, maxLagUs) <==>
            0 < Sum(ds, Chosen(Initiated)) && 100 * Sum(ds, SlowWeight(maxLagUs)) <= Sum(ds, Chosen(Initiated)))
  {
    hide Sum, Tally, Total, Sort, SortedRtts, Lags, RttsKept, MeetsLagGate;
    StatusesSeen(h, steady);
    LagGate(ds, maxLagUs);
  }

  lemma StatusesSeen(h: seq<Completion>, steady: bool)
    ensures (forall s :: s in Tally(h, Any) && Tally(h, Any)[s] > 0 ==> Allowed(s, steady))
       <==> (forall i :: 0 <= i < |h| ==> Allowed(h[i].status, steady))
  {
    forall s ensures s in Tally(h, Any) && Tally(h, Any)[s] > 0 <==> exists i :: 0 <= i < |h| && h[i].status == s {
      TallyMembers(h, s);
    }
    forall i | 0 <= i < |h| ensures h[i].status in Tally(h, Any) && Tally(h, Any)[h[i].status] > 0 {
    }
  }

  lemma {:induction false} TallyMembers(h: seq<Completion>, s: string)
    ensures s in Tally(h, Any) && Tally(h, Any)[s] > 0 <==> exists i :: 0 <= i < |h| && h[i].status == s
    ensures s in Tally(h, Any) ==> Tally(h, Any)[s] > 0
  {
    if |h| > 0 {
      var n := |h| - 1;
      TallyMembers(h[..n], s);
      assert forall i :: 0 <= i < n ==> h[..n][i] == h[i];
      if h[n].status != s && s in Tally(h[..n], Any) && Tally(h[..n], Any)[s] > 0 {
        var i :| 0 <= i < |h[..n]| && h[..n][i].status == s;
        assert h[i].status == s;
      }
    }
  }

  function Above(limit: nat): nat -> nat { (us: nat) => if us > limit then 1 else 0 }

  lemma {:induction false} AboveOrAtMost(values: seq<nat>, limit: nat)
    ensures Sum(values, Above(limit)) + Sum(values, AtMost(limit)) == |values|
  {
    if |values| > 0 {
      AboveOrAtMost(values[..|values| - 1], limit);
      SumSplitsLast(values, Above(limit));
      SumSplitsLast(values, AtMost(limit));
    }
  }

  /** What acceptance says of any report, however it came about: every planned slot was sent and answered with
      an allowed status, the two populations make up the total, the lists are sorted and of the right length,
      and at most one dispatch in a hundred was later than the limit. */
  lemma AcceptedMeans(r: Report, expectedSlots: nat, steady: bool, maxLagUs: nat, s: string)
    requires Accepted(r, expectedSlots, steady, maxLagUs)
    ensures r.offered == r.initiated == r.completed == r.within + r.drained == expectedSlots > 0
    ensures r.droppedInFlight == 0 && r.droppedLate == 0
    ensures Total(r.withinStatuses) == r.within && Total(r.drainStatuses) == r.drained
    ensures Get(r.totalStatuses, s) == Get(r.withinStatuses, s) + Get(r.drainStatuses, s)
    ensures Get(r.totalStatuses, s) > 0 ==> s == "OK" || (!steady && s == "GRPC_RESOURCEEXHAUSTED")
    ensures |r.successful| == Get(r.withinStatuses, "OK")
    ensures forall i, j :: 0 <= i < j < |r.successful| ==> r.successful[i] <= r.successful[j]
    ensures s in r.rttByStatus ==> |r.rttByStatus[s]| == Get(r.totalStatuses, s)
    ensures s in r.rttByStatus ==> forall i, j :: 0 <= i < j < |r.rttByStatus[s]| ==>
              r.rttByStatus[s][i] <= r.rttByStatus[s][j]
    ensures Total(map t | t in r.rttByStatus :: |r.rttByStatus[t]|) == expectedSlots
    ensures |r.dispatchLags| == expectedSlots
    ensures forall i, j :: 0 <= i < j < |r.dispatchLags| ==> r.dispatchLags[i] <= r.dispatchLags[j]
    ensures 100 * |set i | 0 <= i < |r.dispatchLags| && r.dispatchLags[i] > maxLagUs| <= expectedSlots
  {
    hide Accepted, Holds, Total, Get;
    CheckedCounts(r, expectedSlots, steady, maxLagUs, s);
    CheckedLists(r, expectedSlots, steady, maxLagUs, s);
    CheckedLags(r, expectedSlots, steady, maxLagUs);
  }

  lemma CheckedCounts(r: Report, expectedSlots: nat, steady: bool, maxLagUs: nat, s: string)
    requires Accepted(r, expectedSlots, steady, maxLagUs)
    ensures r.offered == r.initiated == r.completed == r.within + r.drained == expectedSlots
    ensures r.droppedInFlight == 0 && r.droppedLate == 0
    ensures Total(r.withinStatuses) == r.within && Total(r.drainStatuses) == r.drained
    ensures Get(r.totalStatuses, s) == Get(r.withinStatuses, s) + Get(r.drainStatuses, s)
    ensures Get(r.totalStatuses, s) > 0 ==> s == "OK" || (!steady && s == "GRPC_RESOURCEEXHAUSTED")
  {
    hide Total;
    assert Holds(OfferedSlots, r, expectedSlots, steady, maxLagUs);
    assert Holds(OfferedAccounting, r, expectedSlots, steady, maxLagUs);
    assert Holds(InitiatedCompleted, r, expectedSlots, steady, maxLagUs);
    assert Holds(PlateauDrain, r, expectedSlots, steady, maxLagUs);
    assert Holds(NoDrops, r, expectedSlots, steady, maxLagUs);
    assert Holds(WithinCounts, r, expectedSlots, steady, maxLagUs);
    assert Holds(DrainCounts, r, expectedSlots, steady, maxLagUs);
    assert Holds(TotalCounts, r, expectedSlots, steady, maxLagUs);
    assert Holds(AllowedStatuses, r, expectedSlots, steady, maxLagUs);
  }

  lemma CheckedLists(r: Report, expectedSlots: nat, steady: bool, maxLagUs: nat, s: string)
    requires Accepted(r, expectedSlots, steady, maxLagUs)
    ensures |r.successful| == Get(r.withinStatuses, "OK") && Sorted(r.successful)
    ensures s in r.rttByStatus ==> |r.rttByStatus[s]| == Get(r.totalStatuses, s) && Sorted(r.rttByStatus[s])
    ensures Total(map t | t in r.rttByStatus :: |r.rttByStatus[t]|) == r.completed
  {
    hide Total, Sorted;
    assert Holds(SuccessfulSorted, r, expectedSlots, steady, maxLagUs);
    assert Holds(SuccessfulPopulation, r, expectedSlots, steady, maxLagUs);
    assert Holds(RttsSorted, r, expectedSlots, steady, maxLagUs);
    assert Holds(RttPopulation, r, expectedSlots, steady, maxLagUs);
    assert Holds(RttTotal, r, expectedSlots, steady, maxLagUs);
  }

  lemma CheckedLags(r: Report, expectedSlots: nat, steady: bool, maxLagUs: nat)
    requires Accepted(r, expectedSlots, steady, maxLagUs)
    ensures |r.dispatchLags| == r.initiated > 0 && Sorted(r.dispatchLags)
    ensures 100 * |set i | 0 <= i < |r.dispatchLags| && r.dispatchLags[i] > maxLagUs| <= |r.dispatchLags|
  {
    hide Total, Sorted, NearestRank99;
    assert Holds(LagsSorted, r, expectedSlots, steady, maxLagUs);
    assert Holds(LagCount, r, expectedSlots, steady, maxLagUs);
    assert Holds(LagP99, r, expectedSlots, steady, maxLagUs);
    NearestRankMeets(r.dispatchLags, maxLagUs);
    AboveOrAtMost(r.dispatchLags, maxLagUs);
    SumIs(r.dispatchLags, Above(maxLagUs), set i | 0 <= i < |r.dispatchLags| && r.dispatchLags[i] > maxLagUs);
  }

  // ----- the dispatch loop -----

  datatype Config = Config(rate: Rate, maxInFlight: nat, dispatchLateAfter: nat, dropLateAfter: nat)

  /** The whole microseconds from `offset` to `now`, none before it. */
  ghost predicate Measures(lag: nat, offset: nat, now: nat) {
    if now <= offset then lag == 0 else offset + 1000 * lag <= now < offset + 1000 * (lag + 1)
  }

  /** At the deadline, or later than the drop limit after its own offset. */
  ghost predicate MissedWindow(config: Config, deadline: nat, slot: nat, now: nat)
    requires Schedulable(config.rate)
  {
    now >= deadline || now > Nanos(config.rate, slot) + config.dropLateAfter
  }

  /** The RPC tasks by slot: still running, finished but not yet joined; the corpus rows issued and the
      slots whose results were recorded, both in order. */
  datatype Flight = Flight(running: set<nat>, finished: set<nat>, issued: seq<nat>, joined: seq<nat>)

  /** Every issued RPC is running, finished or joined, and exactly one of these. */
  ghost predicate Conserved(f: Flight) {
    && f.running !! f.finished
    && multiset(f.joined) + multiset(f.running) + multiset(f.finished) == multiset(f.issued)
  }

  ghost predicate Recorded(h: seq<Completion>, joined: seq<nat>, rpc: nat -> Completion) {
    |h| == |joined| && forall i :: 0 <= i < |h| ==> h[i] == rpc(joined[i])
  }

  /** The rows issued so far: ascending, all before `slot`. */
  ghost predicate Ascending(issued: seq<nat>, slot: nat) {
    && (forall i, j :: 0 <= i < j < |issued| ==> issued[i] < issued[j])
    && (forall i :: 0 <= i < |issued| ==> issued[i] < slot)
  }

  /** Everything the driver does not control: the time found at each slot's dispatch, what each slot's RPC
      would return, and the RPCs the runtime has finished by each slot's join and by its acquire. */
  datatype Environment = Environment(
    clock: nat -> nat, rpc: nat -> Completion, doneByJoin: nat -> set<nat>, doneByAcquire: nat -> set<nat>)

  /** RPC `j` has not been finished at any slot after its own, up to slot `i`. */
  ghost predicate Out(env: Environment, j: nat, i: int) {
    forall k: nat :: j < k <= i ==> j !in env.doneByJoin(k) && j !in env.doneByAcquire(k)
  }

  /** The RPCs running when slot `i` tries to acquire a permit, and those running before slot `i`. */
  ghost function RunningAt(env: Environment, issued: seq<nat>, i: nat): set<nat> {
    set j | j in issued && j < i && Out(env, j, i)
  }

  ghost function RunningBefore(env: Environment, issued: seq<nat>, i: nat): set<nat> {
    set j | j in issued && j < i && Out(env, j, i - 1)
  }

  lemma RunningFinishes(env: Environment, issued: seq<nat>, i: nat)
    ensures RunningAt(env, issued, i) == RunningBefore(env, issued, i) - env.doneByJoin(i) - env.doneByAcquire(i)
  {
    forall j: nat | j < i
      ensures Out(env, j, i) <==> Out(env, j, i - 1) && j !in env.doneByJoin(i) && j !in env.doneByAcquire(i)
    {
    }
  }

  lemma RunningIssues(env: Environment, before: seq<nat>, after: seq<nat>, i: nat)
    requires forall j: nat :: j < i ==> (j in after <==> j in before)
    ensures RunningBefore(env, after, i + 1) == RunningAt(env, before, i) + (if i in after then {i} else {})
  {
  }

  lemma RunningAgrees(env: Environment, before: seq<nat>, after: seq<nat>, i: nat)
    requires forall j: nat :: j < i ==> (j in after <==> j in before)
    ensures RunningAt(env, after, i) == RunningAt(env, before, i)
  {
  }

  /** How a slot was judged from what was found at its dispatch: dropped late exactly when it missed its
      window; otherwise dropped for the limit exactly when that many RPCs were running at its acquire, never
      more; its row sent exactly when initiated; lag and lateness measured from the slot's own offset. */
  ghost predicate Judged(config: Config, env: Environment, deadline: nat, slot: nat, d: Decision, issued: seq<nat>)
    requires Schedulable(config.rate)
  {
    var now := env.clock(slot);
    && (d.outcome == DroppedLate <==> MissedWindow(config, deadline, slot, now))
    && (d.outcome == DroppedInFlight <==>
          !MissedWindow(config, deadline, slot, now) && |RunningAt(env, issued, slot)| == config.maxInFlight)
    && |RunningAt(env, issued, slot)| <= config.maxInFlight
    && (d.outcome == Initiated <==> slot in issued)
    && Measures(d.lag, Nanos(config.rate, slot), now)
    && (d.late <==> now > Nanos(config.rate, slot) + config.dispatchLateAfter)
  }

  /** Some running RPCs finish, each giving its permit back. */
  function Finish(f: Flight, done: set<nat>): (g: Flight)
    ensures Conserved(f) ==> Conserved(g)
    ensures g.issued == f.issued && g.joined == f.joined
    ensures g.running == f.running - done
    ensures |g.running| + |f.running * done| == |f.running|
  {
    var now := f.running * done;
    assert f.running == (f.running - done) + now;
    assert Conserved(f) ==> multiset(f.running) == multiset(f.running - done) + multiset(now);
    assert Conserved(f) ==> multiset(f.finished + now) == multiset(f.finished) + multiset(now);
    f.(running := f.running - done, finished := f.finished + now)
  }

  /** One finished RPC is joined and its completion recorded. */
  method Join(results: OpenLoopResults, f: Flight, t: nat, rpc: nat -> Completion) returns (g: Flight)
    requires results.Valid() && Conserved(f) && Recorded(results.completions, f.joined, rpc) && t in f.finished
    modifies results, results.histogram, results.histogram.counts
    ensures results.Valid() && Conserved(g) && Recorded(results.completions, g.joined, rpc)
    ensures results.decisions == old(results.decisions)
    ensures g == f.(finished := f.finished - {t}, joined := f.joined + [t])
  {
    hide OpenLoopResults.Valid;
    results.RecordCompletion(rpc(t));
    g := f.(finished := f.finished - {t}, joined := f.joined + [t]);
    assert multiset(f.finished) == multiset(g.finished) + multiset{t};
  }

  method JoinFinished(results: OpenLoopResults, f: Flight, rpc: nat -> Completion) returns (g: Flight)
    requires results.Valid() && Conserved(f) && Recorded(results.completions, f.joined, rpc)
    modifies results, results.histogram, results.histogram.counts
    ensures results.Valid() && Conserved(g) && Recorded(results.completions, g.joined, rpc)
    ensures results.decisions == old(results.decisions)
    ensures g.running == f.running && g.finished == {} && g.issued == f.issued
  {
    hide OpenLoopResults.Valid, Conserved, Recorded;
    g := f;
    while g.finished != {}
      invariant results.Valid() && Conserved(g) && Recorded(results.completions, g.joined, rpc)
      invariant results.decisions == old(results.decisions)
      invariant g.running == f.running && g.issued == f.issued
      decreases g.finished
    {
      var t :| t in g.finished;
      g := Join(results, g, t, rpc);
    }
  }

  /** After the last slot: wait for the RPCs still out, in whatever order they finish. */
  method Drain(results: OpenLoopResults, f: Flight, rpc: nat -> Completion) returns (g: Flight)
    requires results.Valid() && Conserved(f) && Recorded(results.completions, f.joined, rpc)
    modifies results, results.histogram, results.histogram.counts
    ensures results.Valid() && Conserved(g) && Recorded(results.completions, g.joined, rpc)
    ensures results.decisions == old(results.decisions)
    ensures g.running == {} && g.finished == {} && g.issued == f.issued
  {
    hide OpenLoopResults.Valid, Conserved, Recorded;
    g := JoinFinished(results, f, rpc);
    while g.running != {}
      invariant results.Valid() && Conserved(g) && Recorded(results.completions, g.joined, rpc)
      invariant results.decisions == old(results.decisions)
      invariant g.finished == {} && g.issued == f.issued
      decreases g.running
    {
      var t :| t in g.running;
      g := Finish(g, {t});
      g := JoinFinished(results, g, rpc);
    }
  }

  function Issue(f: Flight, slot: nat): Flight {
    f.(running := f.running + {slot}, issued := f.issued + [slot])
  }

  lemma IssueKeeps(f: Flight, slot: nat)
    requires Conserved(f) && Ascending(f.issued, slot) && slot !in f.running && slot !in f.finished
    ensures var g := Issue(f, slot);
      Conserved(g) && Ascending(g.issued, slot + 1) && slot in g.issued && |g.running| == |f.running| + 1
  {
    var g := Issue(f, slot);
    assert multiset(g.running) == multiset(f.running) + multiset{slot};
  }

  lemma SkipKeeps(f: Flight, slot: nat)
    requires Ascending(f.issued, slot)
    ensures Ascending(f.issued, slot + 1) && slot !in f.issued
  {
  }

  /** The verdict on a slot found at time `now` with `permits` free. */
  ghost predicate Verdict(config: Config, deadline: nat, slot: nat, now: nat, permits: nat, d: Decision,
                          issued: seq<nat>)
    requires Schedulable(config.rate)
  {
    && (d.outcome == DroppedLate <==> MissedWindow(config, deadline, slot, now))
    && (d.outcome == DroppedInFlight <==> !MissedWindow(config, deadline, slot, now) && permits == 0)
    && (d.outcome == Initiated <==> slot in issued)
    && Measures(d.lag, Nanos(config.rate, slot), now)
    && (d.late <==> now > Nanos(config.rate, slot) + config.dispatchLateAfter)
  }

  /** One offered slot, at time `now`, with `permits` free. */
  method Dispatch(results: OpenLoopResults, config: Config, deadline: nat, slot: nat, now: nat, permits: nat, f: Flight)
    returns (left: nat, g: Flight)
    requires Schedulable(config.rate) && results.Valid()
    requires Conserved(f) && Ascending(f.issued, slot) && slot !in f.running && slot !in f.finished
    requires |f.issued| == Sum(results.decisions, Chosen(Initiated))
    modifies results
    ensures results.Valid() && results.completions == old(results.completions)
    ensures |results.decisions| == |old(results.decisions)| + 1
    ensures results.decisions[..|old(results.decisions)|] == old(results.decisions)
    ensures Verdict(config, deadline, slot, now, permits, results.decisions[|old(results.decisions)|], g.issued)
    ensures Conserved(g) && Ascending(g.issued, slot + 1) && f.issued <= g.issued
    ensures forall i :: i < slot ==> (i in g.issued <==> i in f.issued)
    ensures |g.issued| == Sum(results.decisions, Chosen(Initiated))
    ensures g.joined == f.joined && left + |g.running| == permits + |f.running|
    ensures g.running == f.running + (if slot in g.issued then {slot} else {})
  {
    hide OpenLoopResults.Valid, Conserved, Ascending, Sum;
    SkipKeeps(f, slot);
    IssueKeeps(f, slot);
    var offset := Nanos(config.rate, slot);
    var lag := if now <= offset then 0 else now - offset;
    var late := lag > config.dispatchLateAfter;
    left, g := permits, f;
    var outcome := Initiated;
    if now >= deadline || lag > config.dropLateAfter {
      outcome := DroppedLate;
    } else if permits == 0 {
      outcome := DroppedInFlight;
    } else {
      left := permits - 1;
      g := Issue(f, slot);
    }
    var d := Decision(outcome, lag / 1000, late);
    SumAppend(results.decisions, d, Chosen(Initiated));
    results.RecordDecision(d);
  }

  lemma NothingIssued(env: Environment)
    ensures Conserved(Flight({}, {}, [], [])) && Recorded([], [], env.rpc) && Ascending([], 0)
    ensures Sum([], Chosen(Initiated)) == 0 && RunningBefore(env, [], 0) == {}
  {
  }

  lemma NotYetIssued(f: Flight, slot: nat)
    requires Conserved(f) && Ascending(f.issued, slot)
    ensures slot !in f.running && slot !in f.finished
  {
    assert slot in f.running ==> slot in multiset(f.issued);
    assert slot in f.finished ==> slot in multiset(f.issued);
  }

  lemma AllJoined(f: Flight, h: seq<Completion>, rpc: nat -> Completion)
    requires Conserved(f) && Recorded(h, f.joined, rpc) && f.running == {} && f.finished == {}
    ensures multiset(f.joined) == multiset(f.issued) && |h| == |f.issued|
  {
    SameLength(f.joined, f.issued);
  }

  /** What holds between two slots of the dispatch loop. */
  ghost predicate Progress(slot: nat, config: Config, env: Environment, deadline: nat, ds: seq<Decision>,
                           h: seq<Completion>, permits: nat, f: Flight)
    requires Schedulable(config.rate)
  {
    && |ds| == slot && |f.issued| == Sum(ds, Chosen(Initiated))
    && Conserved(f) && Ascending(f.issued, slot) && Recorded(h, f.joined, env.rpc)
    && permits + |f.running| == config.maxInFlight && f.running == RunningBefore(env, f.issued, slot)
    && (forall i :: 0 <= i < slot ==> Judged(config, env, deadline, i, ds[i], f.issued))
  }

  /** With as many permits free as RPCs are missing from the limit, the verdict is the judgement. */
  lemma VerdictJudges(config: Config, env: Environment, deadline: nat, slot: nat, permits: nat, running: set<nat>,
                      d: Decision, before: seq<nat>, after: seq<nat>)
    requires Schedulable(config.rate)
    requires running == RunningAt(env, before, slot) && permits + |running| == config.maxInFlight
    requires forall i: nat :: i < slot ==> (i in after <==> i in before)
    requires Verdict(config, deadline, slot, env.clock(slot), permits, d, after)
    ensures Judged(config, env, deadline, slot, d, after)
  {
    hide RunningAt, MissedWindow, Measures;
    RunningAgrees(env, before, after, slot);
  }

  /** Issuing a later row does not change how earlier slots were judged. */
  lemma JudgedKept(config: Config, env: Environment, deadline: nat, slot: nat, ds: seq<Decision>,
                   before: seq<nat>, after: seq<nat>)
    requires Schedulable(config.rate) && |ds| == slot + 1
    requires forall i :: 0 <= i < slot ==> Judged(config, env, deadline, i, ds[i], before)
    requires forall i: nat :: i < slot ==> (i in after <==> i in before)
    requires Judged(config, env, deadline, slot, ds[slot], after)
    ensures forall i :: 0 <= i < |ds| ==> Judged(config, env, deadline, i, ds[i], after)
  {
    hide RunningAt, MissedWindow, Measures;
    forall i | 0 <= i < |ds| ensures Judged(config, env, deadline, i, ds[i], after) {
      if i < slot {
        assert Judged(config, env, deadline, i, ds[i], before);
        RunningAgrees(env, before, after, i);
      }
    }
  }

  /** Up to a slot's acquire: RPCs finish, finished ones are joined, more finish; permits come back. */
  method FreePermits(results: OpenLoopResults, env: Environment, slot: nat, permits: nat, f: Flight)
    returns (left: nat, g: Flight)
    requires results.Valid() && Conserved(f) && Recorded(results.completions, f.joined, env.rpc)
    modifies results, results.histogram, results.histogram.counts
    ensures results.Valid() && Conserved(g) && Recorded(results.completions, g.joined, env.rpc)
    ensures results.decisions == old(results.decisions) && g.issued == f.issued
    ensures g.running == f.running - env.doneByJoin(slot) - env.doneByAcquire(slot)
    ensures left + |g.running| == permits + |f.running|
  {
    hide OpenLoopResults.Valid, Conserved, Recorded;
    left := permits + |f.running * env.doneByJoin(slot)|;
    g := Finish(f, env.doneByJoin(slot));
    g := JoinFinished(results, g, env.rpc);
    left := left + |g.running * env.doneByAcquire(slot)|;
    g := Finish(g, env.doneByAcquire(slot));
  }

  /** One turn of the dispatch loop: join what has finished, then judge and perhaps dispatch the slot. */
  method OfferSlot(results: OpenLoopResults, config: Config, env: Environment, deadline: nat, slot: nat, permits: nat,
                   f: Flight)
    returns (left: nat, g: Flight)
    requires Schedulable(config.rate) && results.Valid()
    requires Progress(slot, config, env, deadline, results.decisions, results.completions, permits, f)
    modifies results, results.histogram, results.histogram.counts
    ensures results.Valid()
    ensures Progress(slot + 1, config, env, deadline, results.decisions, results.completions, left, g)
  {
    hide OpenLoopResults.Valid, Conserved, Recorded, Judged, Ascending, Sum, RunningAt, RunningBefore, Verdict;
    left, g := FreePermits(results, env, slot, permits, f);
    RunningFinishes(env, f.issued, slot);
    NotYetIssued(g, slot);
    ghost var running, free, before := g.running, left, g.issued;
    left, g := Dispatch(results, config, deadline, slot, env.clock(slot), left, g);
    RunningIssues(env, before, g.issued, slot);
    VerdictJudges(config, env, deadline, slot, free, running, results.decisions[slot], before, g.issued);
    JudgedKept(config, env, deadline, slot, results.decisions, before, g.issued);
  }

  /** Runs the open loop against any environment; the order of joins is arbitrary. */
  method RunOpenLoop(config: Config, rows: nat, seconds: nat, deadline: nat, env: Environment)
    returns (results: OpenLoopResults, issued: seq<nat>, joined: seq<nat>)
    requires Schedulable(config.rate) && Slots(config.rate, seconds) <= rows
    ensures results.Finalized() && results.offeredSlots == Slots(config.rate, seconds)
    ensures Ascending(issued, results.offeredSlots) && |issued| == Sum(results.decisions, Chosen(Initiated))
    ensures multiset(joined) == multiset(issued) && Recorded(results.completions, joined, env.rpc)
    ensures |results.decisions| == results.offeredSlots
    ensures forall i :: 0 <= i < results.offeredSlots ==>
              Judged(config, env, deadline, i, results.decisions[i], issued)
  {
    hide OpenLoopResults.Valid, OpenLoopResults.Finalized, Conserved, Recorded, Judged, Ascending, Sum,
         RunningBefore, RunningAt;
    var offered := Slots(config.rate, seconds);
    results := new OpenLoopResults(offered);
    var permits := config.maxInFlight;
    var f := Flight({}, {}, [], []);
    NothingIssued(env);
    for slot := 0 to offered
      invariant fresh(results) && fresh(results.histogram) && fresh(results.histogram.counts)
      invariant results.Valid() && results.offeredSlots == offered
      invariant Progress(slot, config, env, deadline, results.decisions, results.completions, permits, f)
    {
      permits, f := OfferSlot(results, config, env, deadline, slot, permits, f);
    }
    f := Drain(results, f, env.rpc);
    AllJoined(f, results.completions, env.rpc);
    results.Finalize();
    issued, joined := f.issued, f.joined;
  }
}
