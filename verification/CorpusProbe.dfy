/** The corpus probe's closed loop: workers claim rows until a deadline or the end of the corpus, keep
    private tallies, and merge them into one report. */
module CorpusProbe {
  import opened Common
  import opened Sorting
  import opened OpenLoop
  import opened Claiming

  /** What one worker accumulates privately. */
  datatype Local = Local(statuses: map<string, nat>, drained: map<string, nat>, raw: seq<nat>, buckets: seq<nat>)

  function LocalOf(h: seq<Completion>): Local {
    Local(Tally(h, Within), Tally(h, After), RttsKept(h, OkWithin), Buckets(RttsKept(h, OkWithin)))
  }

  /** All completions, worker by worker. */
  function Flatten(hs: seq<seq<Completion>>, n: nat): seq<Completion>
    requires n <= |hs|
  {
    if n == 0 then [] else Flatten(hs, n - 1) + hs[n - 1]
  }

  function Size(h: seq<Completion>): nat { |h| }

  lemma {:induction false} FlattenSize(hs: seq<seq<Completion>>, n: nat)
    requires n <= |hs|
    ensures |Flatten(hs, n)| == SumTo(hs, n, Size)
  {
    if n > 0 { FlattenSize(hs, n - 1); }
  }

  lemma LocalGrows(h: seq<Completion>, c: Completion)
    ensures LocalOf(h).buckets == Buckets(LocalOf(h).raw)
    ensures LocalOf(h + [c]) ==
      if !c.within then LocalOf(h).(drained := Bump(LocalOf(h).drained, c.status))
      else if c.status == "OK" then
        Local(Bump(LocalOf(h).statuses, "OK"), LocalOf(h).drained, LocalOf(h).raw + [c.rtt],
              Buckets(LocalOf(h).raw + [c.rtt]))
      else LocalOf(h).(statuses := Bump(LocalOf(h).statuses, c.status))
  {
    hide Buckets;
    CompleteOne(h, c, Within);
    CompleteOne(h, c, After);
    CompleteOne(h, c, OkWithin);
    assert RttsKept(h, OkWithin) + [] == RttsKept(h, OkWithin);
  }

  // ----- merging -----

  lemma {:induction false} RttsConcat(a: seq<Completion>, b: seq<Completion>, p: Population)
    ensures RttsKept(a + b, p) == RttsKept(a, p) + RttsKept(b, p)
  {
    if |b| == 0 {
      assert a + b == a;
    } else {
      var n := |b| - 1;
      RttsConcat(a, b[..n], p);
      assert (a + b)[..|a + b| - 1] == a + b[..n];
    }
  }

  /** A map is the tally of a population when it counts each status exactly. */
  lemma TallyIs(m: map<string, nat>, h: seq<Completion>, p: Population)
    requires forall k :: Get(m, k) == Sum(h, KeptAs(p, k)) && (k in m <==> Sum(h, KeptAs(p, k)) > 0)
    ensures m == Tally(h, p)
  {
    forall k ensures Get(m, k) == Get(Tally(h, p), k) && (k in m <==> k in Tally(h, p)) {
      TallyCounts(h, p, k);
    }
    assert m.Keys == Tally(h, p).Keys;
    forall k | k in m ensures m[k] == Tally(h, p)[k] {
      assert Get(m, k) == Get(Tally(h, p), k);
    }
  }

  /** Adding a worker's counts into the shared map gives the tally of both histories together. */
  method MergeCounts(shared: map<string, nat>, local: map<string, nat>,
                     ghost a: seq<Completion>, ghost b: seq<Completion>, ghost p: Population)
    returns (merged: map<string, nat>)
    requires shared == Tally(a, p) && local == Tally(b, p)
    ensures merged == Tally(a + b, p)
  {
    hide Tally;
    merged := shared;
    var todo := local.Keys;
    while todo != {}
      invariant todo <= local.Keys
      invariant merged.Keys == shared.Keys + (local.Keys - todo)
      invariant forall k :: Get(merged, k) == Get(shared, k) + (if k in todo then 0 else Get(local, k))
    {
      var k :| k in todo;
      merged := merged[k := Get(merged, k) + local[k]];
      todo := todo - {k};
    }
    forall k
      ensures Get(merged, k) == Sum(a + b, KeptAs(p, k)) && (k in merged <==> Sum(a + b, KeptAs(p, k)) > 0)
    {
      TallyCounts(a, p, k);
      TallyCounts(b, p, k);
      SumConcat(a, b, KeptAs(p, k));
    }
    TallyIs(merged, a + b, p);
  }

  /** `raw` is reported, sorted, only when raw latencies were asked for. */
  datatype ProbeReport = ProbeReport(
    claimed: nat, exhausted: bool, statuses: map<string, nat>, drained: map<string, nat>, raw: Option<seq<nat>>,
    buckets: seq<nat>)

  /** What the report says of a run in which the workers completed `hs` and the rows `finished`. */
  ghost predicate Reports(r: ProbeReport, rows: nat, hs: seq<seq<Completion>>, finished: seq<nat>, rawLatencies: bool) {
    var all := Flatten(hs, |hs|);
    && r.claimed == Total(r.statuses) + Total(r.drained) == |all|
    && r.claimed <= rows && (r.exhausted ==> r.claimed == rows)
    && multiset(finished) == multiset(UpTo(r.claimed))
    && r.statuses == Tally(all, Within) && r.drained == Tally(all, After)
    && r.buckets == Buckets(RttsKept(all, OkWithin)) && |RttsKept(all, OkWithin)| == Get(r.statuses, "OK")
    && r.raw == if rawLatencies then Some(Sort(RttsKept(all, OkWithin), NatLe)) else None
  }

  /** What a reader of the report alone can rely on: its counts add up to the claimed rows, and its raw
      times, when asked for, are sorted, one for each success, and give its buckets. */
  ghost predicate Consistent(r: ProbeReport, rows: nat, rawLatencies: bool) {
    && r.claimed == Total(r.statuses) + Total(r.drained) <= rows && (r.exhausted ==> r.claimed == rows)
    && (r.raw.Some? <==> rawLatencies)
    && (r.raw.Some? ==>
      && SortedBy(r.raw.value, NatLe) && |r.raw.value| == Get(r.statuses, "OK")
      && r.buckets == Buckets(r.raw.value))
  }

  lemma BucketsPermuted(a: seq<nat>, b: seq<nat>)
    requires multiset(a) == multiset(b)
    ensures Buckets(a) == Buckets(b)
  {
    forall i | 0 <= i <= |BOUNDS_US| ensures Buckets(a)[i] == Buckets(b)[i] {
      SumPermuted(a, b, FallsIn(i));
    }
  }

  lemma ReportConsistent(r: ProbeReport, rows: nat, hs: seq<seq<Completion>>, finished: seq<nat>, rawLatencies: bool)
    requires Reports(r, rows, hs, finished, rawLatencies)
    ensures Consistent(r, rows, rawLatencies)
  {
    hide Buckets, Sort, Total, Tally, RttsKept, Flatten;
    var times := RttsKept(Flatten(hs, |hs|), OkWithin);
    NatLeTotal();
    SortSorts(times, NatLe);
    BucketsPermuted(times, Sort(times, NatLe));
  }

  /** A weight summed over the merged answers is summed worker by worker. */
  lemma {:induction false} FlattenSums(hs: seq<seq<Completion>>, n: nat, weight: Completion -> nat,
                                       count: seq<Completion> -> nat)
    requires n <= |hs| && forall h :: count(h) == Sum(h, weight)
    ensures Sum(Flatten(hs, n), weight) == SumTo(hs, n, count)
  {
    if n > 0 {
      FlattenSums(hs, n - 1, weight, count);
      SumConcat(Flatten(hs, n - 1), hs[n - 1], weight);
    }
  }

  /** How many answers of one worker had a status, within the plateau or after it. */
  ghost function Answered(within: bool, status: string): seq<Completion> -> nat {
    (h: seq<Completion>) => |set i | 0 <= i < |h| && h[i].within == within && h[i].status == status|
  }

  /** How many OK answers of one worker within the plateau took `us`. */
  ghost function OkTook(us: nat): seq<Completion> -> nat {
    (h: seq<Completion>) => |set i | 0 <= i < |h| && h[i].within && h[i].status == "OK" && h[i].rtt == us|
  }

  lemma AnsweredSums(hs: seq<seq<Completion>>, s: string, us: nat)
    ensures Sum(Flatten(hs, |hs|), KeptAs(Within, s)) == Sum(hs, Answered(true, s))
    ensures Sum(Flatten(hs, |hs|), KeptAs(After, s)) == Sum(hs, Answered(false, s))
    ensures Sum(Flatten(hs, |hs|), RttAs(OkWithin, us)) == Sum(hs, OkTook(us))
  {
    hide Sum, Flatten, Answered, OkTook;
    forall h: seq<Completion>
      ensures Sum(h, KeptAs(Within, s)) == Answered(true, s)(h) && Sum(h, KeptAs(After, s)) == Answered(false, s)(h)
      ensures Sum(h, RttAs(OkWithin, us)) == OkTook(us)(h)
    {
      AnsweredCounts(h, s, us);
    }
    FlattenSums(hs, |hs|, KeptAs(Within, s), Answered(true, s));
    FlattenSums(hs, |hs|, KeptAs(After, s), Answered(false, s));
    FlattenSums(hs, |hs|, RttAs(OkWithin, us), OkTook(us));
    assert Sum(hs, Answered(true, s)) == SumTo(hs, |hs|, Answered(true, s)) by { SumAll(hs, Answered(true, s)); }
    assert Sum(hs, Answered(false, s)) == SumTo(hs, |hs|, Answered(false, s)) by { SumAll(hs, Answered(false, s)); }
    assert Sum(hs, OkTook(us)) == SumTo(hs, |hs|, OkTook(us)) by { SumAll(hs, OkTook(us)); }
  }

  lemma SumAll<T>(s: seq<T>, weight: T -> nat)
    ensures Sum(s, weight) == SumTo(s, |s|, weight)
  {
  }

  lemma AnsweredCounts(h: seq<Completion>, s: string, us: nat)
    ensures Sum(h, KeptAs(Within, s)) == Answered(true, s)(h) && Sum(h, KeptAs(After, s)) == Answered(false, s)(h)
    ensures Sum(h, RttAs(OkWithin, us)) == OkTook(us)(h)
  {
    hide Sum;
    SumIs(h, KeptAs(Within, s), set i | 0 <= i < |h| && h[i].within == true && h[i].status == s);
    SumIs(h, KeptAs(After, s), set i | 0 <= i < |h| && h[i].within == false && h[i].status == s);
    SumIs(h, RttAs(OkWithin, us), set i | 0 <= i < |h| && h[i].within && h[i].status == "OK" && h[i].rtt == us);
  }

  /** What the report says of the workers' answers: its numbers add up theirs. */
  lemma ReportReads(r: ProbeReport, rows: nat, hs: seq<seq<Completion>>, finished: seq<nat>, rawLatencies: bool,
                    s: string, us: nat)
    requires Reports(r, rows, hs, finished, rawLatencies)
    ensures Get(r.statuses, s) == Sum(hs, Answered(true, s)) && Get(r.drained, s) == Sum(hs, Answered(false, s))
    ensures r.raw.Some? ==> multiset(r.raw.value)[us] == Sum(hs, OkTook(us))
  {
    var all := Flatten(hs, |hs|);
    AnsweredSums(hs, s, us);
    TallyCounts(all, Within, s);
    TallyCounts(all, After, s);
    RttsKeptCount(all, OkWithin, us);
    SortedCount(RttsKept(all, OkWithin), us);
    hide Tally, Total, Sort, RttsKept, Flatten, Buckets, Get, Sum;
  }

  method MergeLocals(locals: seq<Local>, ghost hs: seq<seq<Completion>>)
    returns (statuses: map<string, nat>, drained: map<string, nat>, raw: seq<nat>, buckets: seq<nat>)
    requires |locals| == |hs| && forall w :: 0 <= w < |hs| ==> locals[w] == LocalOf(hs[w])
    ensures Local(statuses, drained, raw, buckets) == LocalOf(Flatten(hs, |hs|))
  {
    hide Tally, RttsKept, Buckets;
    LocalOfNothing();
    statuses, drained, raw, buckets := map[], map[], [], NoBuckets();
    for w := 0 to |locals|
      invariant Local(statuses, drained, raw, buckets) == LocalOf(Flatten(hs, w))
    {
      ghost var before := Flatten(hs, w);
      RttsConcat(before, hs[w], OkWithin);
      BucketsConcat(raw, locals[w].raw);
      buckets := AddBuckets(buckets, locals[w].buckets);
      statuses := MergeCounts(statuses, locals[w].statuses, before, hs[w], Within);
      drained := MergeCounts(drained, locals[w].drained, before, hs[w], After);
      raw := raw + locals[w].raw;
    }
  }

  lemma LocalOfNothing()
    ensures LocalOf([]) == Local(map[], map[], [], NoBuckets())
  {
    NothingFalls();
  }

  // ----- the probe -----

  ghost predicate AnyOverrun(workers: seq<Worker>) {
    exists v :: 0 <= v < |workers| && workers[v].Overrun?
  }

  lemma OverrunsAfter(workers: seq<Worker>, w: nat, x: Worker)
    requires w < |workers| && !workers[w].Overrun?
    ensures AnyOverrun(workers[w := x]) <==> x.Overrun? || AnyOverrun(workers)
  {
    var after := workers[w := x];
    if v :| 0 <= v < |workers| && workers[v].Overrun? { assert after[v].Overrun?; }
    assert x.Overrun? ==> after[w].Overrun?;
    if v :| 0 <= v < |workers| && after[v].Overrun? { assert v != w ==> workers[v].Overrun?; }
  }

  /** The probe with its row counter and each worker's private counts.  `histories` is what each worker
      completed; `issued` and `finished` are the rows in the order they were claimed and completed. */
  class Probe {
    const rows: nat
    var nextRow: nat
    var workers: seq<Worker>
    var locals: seq<Local>
    var exhausted: bool
    ghost var histories: seq<seq<Completion>>
    ghost var issued: seq<nat>
    ghost var finished: seq<nat>

    ghost function Snapshot(): State
      reads this
    {
      State(nextRow, workers, issued, finished)
    }

    ghost predicate Valid()
      reads this
    {
      && rows + |workers| < WORD && Inv(rows, Snapshot())
      && |locals| == |workers| == |histories|
      && (forall w :: 0 <= w < |locals| ==> locals[w] == LocalOf(histories[w]))
      && Sum(histories, Size) == |finished|
      && (exhausted <==> AnyOverrun(workers))
    }

    constructor (rows: nat, concurrency: nat)
      requires rows + concurrency < WORD
      ensures Valid() && this.rows == rows && Snapshot() == Init(concurrency)
      ensures histories == seq(concurrency, _ => [])
    {
      this.rows := rows;
      nextRow, workers, exhausted := 0, seq(concurrency, _ => Ready), false;
      locals := seq(concurrency, _ => Local(map[], map[], [], NoBuckets()));
      histories, issued, finished := seq(concurrency, _ => []), [], [];
      LocalOfNothing();
      InitHolds(rows, concurrency);
      SumToZero(seq(concurrency, _ => []), concurrency, Size);
    }

    lemma Keeps()
      requires Valid()
      ensures Inv(rows, Snapshot()) && |histories| == |workers|
    {
    }

    /** The deadline check at the top of the loop. */
    method PastDeadline(w: nat)
      requires Valid() && w < |workers| && workers[w].Ready?
      modifies this
      ensures Valid() && Snapshot() == Step(rows, old(Snapshot()), Stop(w)) && histories == old(histories)
    {
      hide InOrder, NothingLost, LocalOf, AnyOverrun;
      StepKeepsOrder(rows, Snapshot(), Stop(w));
      StepKeepsKept(rows, Snapshot(), Stop(w));
      ghost var before := workers;
      workers := workers[w := Stopped];
      OverrunsAfter(before, w, Stopped);
    }

    method ClaimRow(w: nat) returns (index: nat)
      requires Valid() && w < |workers| && workers[w].Ready?
      modifies this
      ensures Valid() && Snapshot() == Step(rows, old(Snapshot()), Claim(w)) && histories == old(histories)
      ensures index == old(nextRow) && (workers[w].Overrun? <==> index >= rows)
    {
      hide InOrder, NothingLost, LocalOf, AnyOverrun;
      StepKeepsOrder(rows, Snapshot(), Claim(w));
      StepKeepsKept(rows, Snapshot(), Claim(w));
      ghost var before := workers;
      index := nextRow;
      nextRow := (nextRow + 1) % WORD;
      if index >= rows {
        exhausted, workers := true, workers[w := Overrun];
        OverrunsAfter(before, w, Overrun);
      } else {
        workers, issued := workers[w := Issuing(index)], issued + [index];
        OverrunsAfter(before, w, Issuing(index));
      }
    }

    method CompleteRow(w: nat, c: Completion)
      requires Valid() && w < |workers| && workers[w].Issuing?
      modifies this
      ensures Valid() && Snapshot() == Step(rows, old(Snapshot()), Finish(w))
      ensures histories == old(histories)[w := old(histories)[w] + [c]]
    {
      hide InOrder, NothingLost, LocalOf, AnyOverrun;
      StepKeepsOrder(rows, Snapshot(), Finish(w));
      StepKeepsKept(rows, Snapshot(), Finish(w));
      LocalGrows(histories[w], c);
      SumUpdate(histories, w, histories[w] + [c], Size);
      OverrunsAfter(workers, w, Ready);
      var l := locals[w];
      if !c.within {
        l := l.(drained := Bump(l.drained, c.status));
      } else if c.status == "OK" {
        var bucket := BucketOf(c.rtt);
        BucketsAppend(l.raw, c.rtt, bucket);
        l := Local(Bump(l.statuses, "OK"), l.drained, l.raw + [c.rtt], l.buckets[bucket := l.buckets[bucket] + 1]);
      } else {
        l := l.(statuses := Bump(l.statuses, c.status));
      }
      locals, histories := locals[w := l], histories[w := histories[w] + [c]];
      workers, finished := workers[w := Ready], finished + [workers[w].sequence];
    }

    /** Once every worker has stopped: each claimed row is in exactly one of the two reported populations,
        and the corpus counts as exhausted only if every row was claimed. */
    method MakeReport(rawLatencies: bool) returns (r: ProbeReport)
      requires Valid() && Quiet(Snapshot())
      ensures Reports(r, rows, histories, finished, rawLatencies) && r.claimed == |issued|
      ensures r.exhausted <==> exists w :: 0 <= w < |workers| && workers[w].Overrun?
    {
      hide InOrder, NothingLost, Tally, Total, Flatten, Sort, Buckets;
      ghost var all := Flatten(histories, |histories|);
      ClaimedIsFinished(rows, Snapshot());
      FinishedIsIssued(rows, Snapshot());
      FlattenSize(histories, |histories|);
      var statuses, drained, raw, buckets := MergeLocals(locals, histories);
      TallyTotal(all, Within);
      TallyTotal(all, After);
      CountsSplit(all);
      OkPopulation(all);
      r := ProbeReport(if nextRow < rows then nextRow else rows, exhausted, statuses, drained,
                       if rawLatencies then Some(Sort(raw, NatLe)) else None, buckets);
    }
  }

  lemma NoneStopsEarly(total: nat, s: State, a: Action)
    requires Enabled(s, a)
    ensures |Step(total, s, a).workers| == |s.workers|
    ensures Remaining(total, Step(total, s, a)) == Remaining(total, s) - 1
  {
    StepUsesOne(total, s, a);
  }

  lemma WorkLeft(total: nat, s: State)
    requires Inv(total, s)
    ensures Remaining(total, s) >= 0
  {
  }

  /** Runs the probe under an arbitrary scheduler, with the deadline passing each worker at an arbitrary
      moment and arbitrary answers: the run ends, and the report accounts for every claimed row. */
  method RunProbe(rows: nat, concurrency: nat, rawLatencies: bool)
    returns (r: ProbeReport, ghost histories: seq<seq<Completion>>, ghost finished: seq<nat>, ghost ends: seq<Worker>)
    requires rows + concurrency < WORD
    ensures |histories| == concurrency && Reports(r, rows, histories, finished, rawLatencies)
    ensures Consistent(r, rows, rawLatencies)
    ensures |ends| == concurrency && forall w :: 0 <= w < |ends| ==> ends[w].Overrun? || ends[w].Stopped?
    ensures r.exhausted <==> exists w :: 0 <= w < |ends| && ends[w].Overrun?
  {
    hide InOrder, NothingLost, Step, Probe.Valid, Remaining, Reports, Inv, Consistent;
    var probe := new Probe(rows, concurrency);
    var running := true;
    while running
      invariant fresh(probe) && probe.Valid() && probe.rows == rows && |probe.workers| == concurrency
      invariant !running ==> Quiet(probe.Snapshot())
      decreases Remaining(rows, probe.Snapshot()), running
    {
      ghost var before := probe.Snapshot();
      probe.Keeps();
      WorkLeft(rows, before);
      if w: nat :| w < concurrency && !probe.workers[w].Overrun? && !probe.workers[w].Stopped? {
        if probe.workers[w].Issuing? {
          var c: Completion := *;
          NoneStopsEarly(rows, before, Finish(w));
          probe.CompleteRow(w, c);
        } else {
          var deadlinePassed: bool := *;
          if deadlinePassed {
            NoneStopsEarly(rows, before, Stop(w));
            probe.PastDeadline(w);
          } else {
            NoneStopsEarly(rows, before, Claim(w));
            var _ := probe.ClaimRow(w);
          }
        }
      } else {
        running := false;
      }
    }
    probe.Keeps();
    r := probe.MakeReport(rawLatencies);
    histories, finished, ends := probe.histories, probe.finished, probe.workers;
    ReportConsistent(r, rows, histories, finished, rawLatencies);
  }

  lemma FinishedIsIssued(total: nat, s: State)
    requires Inv(total, s) && Quiet(s)
    ensures multiset(s.finished) == multiset(UpTo(|s.issued|))
  {
    NothingHeld(|s.workers|, s.workers);
    PlusNothing(multiset(s.finished));
    assert s.issued == UpTo(|s.issued|);
  }
}
