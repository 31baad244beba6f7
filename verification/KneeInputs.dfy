/** What the knee scan is given: the attested cells of a sweep, aggregated rate by rate.  On such points
    the scan always reports. */
module KneeInputs {
  import opened Common
  import opened Sorting
  import opened Statistics
  import opened Knee

  /** One attested cell; `p99` is None exactly when no latency was sampled. */
  datatype Record = Record(
    rate: real, schedulerValid: bool, durationSeconds: nat, offered: nat, ok: nat, errors: nat,
    inFlightDrops: nat, drained: nat, healthEvents: nat, p99: Option<nat>)

  /** What attestation guarantees: some time and some offered slots passed, and the latency population is
      that of the OK completions. */
  predicate Attested(r: Record) {
    r.durationSeconds > 0 && r.offered > 0 && (r.p99.Some? <==> r.ok > 0)
  }

  // ----- per-cell figures -----

  datatype Figure = UsefulRps | SuccessRatio | InFlightRatio | DrainRatio | OfferedRps

  function Read(r: Record, f: Figure): real
    requires Attested(r)
  {
    match f
    case UsefulRps => r.ok as real / r.durationSeconds as real
    case SuccessRatio => r.ok as real / r.offered as real
    case InFlightRatio => r.inFlightDrops as real / r.offered as real
    case DrainRatio => r.drained as real / r.offered as real
    case OfferedRps => r.offered as real / r.durationSeconds as real
  }

  /** Each figure times what it is a share of gives the count. */
  lemma FiguresExactly(r: Record)
    requires Attested(r)
    ensures Read(r, UsefulRps) * r.durationSeconds as real == r.ok as real
    ensures Read(r, OfferedRps) * r.durationSeconds as real == r.offered as real
    ensures Read(r, SuccessRatio) * r.offered as real == r.ok as real
    ensures Read(r, InFlightRatio) * r.offered as real == r.inFlightDrops as real
    ensures Read(r, DrainRatio) * r.offered as real == r.drained as real
  {
  }

  ghost predicate AllAttested(cells: seq<Record>) {
    forall i :: 0 <= i < |cells| ==> Attested(cells[i])
  }

  function Figures(cells: seq<Record>, f: Figure): (values: seq<real>)
    requires AllAttested(cells)
    ensures |values| == |cells|
  {
    seq(|cells|, i requires 0 <= i < |cells| => Read(cells[i], f))
  }

  /** The p99 of every cell that has one. */
  function Latencies(cells: seq<Record>): (values: seq<real>)
    ensures |values| <= |cells|
    ensures |values| > 0 <==> exists i :: 0 <= i < |cells| && cells[i].p99.Some?
  {
    if |cells| == 0 then [] else
    var last := cells[|cells| - 1];
    Latencies(cells[..|cells| - 1]) + (if last.p99.Some? then [last.p99.value as real] else [])
  }

  function MedianOf(values: seq<real>): Option<real> {
    if |values| == 0 then None else Some(Median(values))
  }

  // ----- aggregation -----

  /** The population coefficient of variation: absent for fewer than two values or a zero mean, otherwise
      the standard deviation over the mean, stated without a root. */
  ghost predicate Variation(xs: seq<real>, cv: Option<real>) {
    if |xs| < 2 || Total(xs) == 0.0 then cv == None else
    var mean := Total(xs) / |xs| as real;
    cv.Some? && cv.value * mean >= 0.0
    && (cv.value * mean) * (cv.value * mean) * |xs| as real == SquaredDeviation(xs, mean)
  }

  function ErrorWeight(r: Record): nat { r.errors }

  function HealthWeight(r: Record): nat { r.healthEvents }

  /** The point aggregated from the cells of one rate. */
  ghost predicate AggregatedFrom(p: Point, cells: seq<Record>) {
    && |cells| > 0 && AllAttested(cells) && p.repetitions == |cells| && p.rate == cells[0].rate
    && (p.schedulerValid <==> forall i :: 0 <= i < |cells| ==> cells[i].schedulerValid)
    && p.p99 == MedianOf(Latencies(cells))
    && p.success == Median(Figures(cells, SuccessRatio))
    && p.inFlightDrops == Median(Figures(cells, InFlightRatio))
    && p.drained == Median(Figures(cells, DrainRatio))
    && p.errors == Sum(cells, ErrorWeight) && p.healthEvents == Sum(cells, HealthWeight)
    && p.useful == Median(Figures(cells, UsefulRps)) && p.offered == Median(Figures(cells, OfferedRps))
    && Variation(Figures(cells, UsefulRps), p.usefulCv) && Variation(Latencies(cells), p.p99Cv)
  }

  function OfRate(records: seq<Record>, rate: real): (cells: seq<Record>)
    ensures forall r :: r in cells <==> r in records && r.rate == rate
  {
    if |records| == 0 then [] else
    var last := records[|records| - 1];
    OfRate(records[..|records| - 1], rate) + (if last.rate == rate then [last] else [])
  }

  /** One point for each rate recorded, in ascending order. */
  ghost predicate Aggregates(records: seq<Record>, ps: seq<Point>) {
    && AscendingRates(ps)
    && (forall r :: r in records ==> exists i :: 0 <= i < |ps| && ps[i].rate == r.rate)
    && (forall i :: 0 <= i < |ps| ==> AggregatedFrom(ps[i], OfRate(records, ps[i].rate)))
  }

  // ----- the scan always reports -----

  lemma {:induction false} TotalAtLeast(xs: seq<real>, k: nat)
    requires k < |xs| && forall i :: 0 <= i < |xs| ==> xs[i] >= 0.0
    ensures Total(xs) >= xs[k]
  {
    var n := |xs| - 1;
    if k < n {
      TotalAtLeast(xs[..n], k);
    } else {
      TotalNonNegative(xs[..n]);
    }
  }

  lemma {:induction false} TotalNonNegative(xs: seq<real>)
    requires forall i :: 0 <= i < |xs| ==> xs[i] >= 0.0
    ensures Total(xs) >= 0.0
  {
    if |xs| > 0 { TotalNonNegative(xs[..|xs| - 1]); }
  }

  lemma RatioPositive(a: nat, b: nat)
    requires b > 0
    ensures a as real / b as real >= 0.0 && (a > 0 ==> a as real / b as real > 0.0)
  {
  }

  /** Two or more cells with some latency sampled always have a measured throughput variation. */
  lemma LatencyMeansThroughput(p: Point, cells: seq<Record>)
    requires AggregatedFrom(p, cells) && p.p99.Some? && p.repetitions >= 2
    ensures p.usefulCv.Some?
  {
    var useful := Figures(cells, UsefulRps);
    var k :| 0 <= k < |cells| && cells[k].p99.Some?;
    forall i | 0 <= i < |useful| ensures useful[i] >= 0.0 && (cells[i].ok > 0 ==> useful[i] > 0.0) {
      assert Attested(cells[i]);
      RatioPositive(cells[i].ok, cells[i].durationSeconds);
    }
    TotalAtLeast(useful, k);
    assert Attested(cells[k]);
  }

  /** Although the scan compares a variation that points in general may lack, no aggregated sweep makes it
      do so: it always returns a verdict. */
  lemma AggregatesNeverRaise(records: seq<Record>, ps: seq<Point>, o: Outcome)
    requires Aggregates(records, ps) && Rule(ps, o)
    ensures !o.Raised?
  {
    hide AggregatedFrom, Rule, Variation;
    if InvalidRates(ps) == [] && |ps| >= 2 {
      RaisesExactly(ps, o);
      forall t ensures !RaisesAt(ps, t) {
        if Elevated(ps, t) && ps[t].repetitions >= 5 {
          LatencyMeansThroughput(ps[t], OfRate(records, ps[t].rate));
        }
      }
    } else {
      NotEvaluableReports(ps, o);
    }
  }

  lemma NotEvaluableReports(ps: seq<Point>, o: Outcome)
    requires Rule(ps, o) && (InvalidRates(ps) != [] || |ps| < 2)
    ensures o.Unattributed? || o.TooFewPoints?
  {
  }

  // ----- single-cell sweeps, and what they show -----

  /** The point of a rate tested once. */
  function Single(r: Record): Point
    requires Attested(r)
  {
    Point(r.rate, r.schedulerValid, 1, if r.p99.Some? then Some(r.p99.value as real) else None,
          Read(r, SuccessRatio), Read(r, InFlightRatio), Read(r, DrainRatio), r.errors, r.healthEvents,
          Read(r, UsefulRps), Read(r, OfferedRps), None, None)
  }

  lemma MedianOne(x: real)
    ensures Median([x]) == x
  {
    MedianWithin([x]);
  }

  lemma SingleAggregated(r: Record)
    requires Attested(r)
    ensures AggregatedFrom(Single(r), [r])
  {
    hide Median;
    var cells := [r];
    assert cells[..0] == [];
    assert Latencies(cells) == if r.p99.Some? then [r.p99.value as real] else [];
    assert [] + [r] == cells;
    SumAppend([], r, ErrorWeight);
    SumAppend([], r, HealthWeight);
    forall f ensures Figures(cells, f) == [Read(r, f)] && Median(Figures(cells, f)) == Read(r, f) {
      MedianOne(Read(r, f));
    }
    if r.p99.Some? { MedianOne(r.p99.value as real); }
  }

  ghost predicate OnceEach(records: seq<Record>) {
    AllAttested(records) && forall i, j :: 0 <= i < j < |records| ==> records[i].rate < records[j].rate
  }

  function Singles(records: seq<Record>): (ps: seq<Point>)
    requires AllAttested(records)
    ensures |ps| == |records|
  {
    seq(|records|, i requires 0 <= i < |records| => Single(records[i]))
  }

  lemma {:induction false} OnlyOne(records: seq<Record>, n: nat, k: nat)
    requires OnceEach(records) && n <= |records| && k < |records|
    ensures OfRate(records[..n], records[k].rate) == if k < n then [records[k]] else []
  {
    if n > 0 {
      assert records[..n][..n - 1] == records[..n - 1];
      OnlyOne(records, n - 1, k);
    }
  }

  /** Ascending attested cells, one per rate, are aggregated into their single points. */
  lemma SinglesAggregate(records: seq<Record>)
    requires OnceEach(records)
    ensures Aggregates(records, Singles(records))
  {
    hide Single, AggregatedFrom;
    var ps := Singles(records);
    forall i | 0 <= i < |ps|
      ensures ps[i].rate == records[i].rate && AggregatedFrom(ps[i], OfRate(records, ps[i].rate))
    {
      SingleRate(records[i]);
      assert records[..|records|] == records;
      OnlyOne(records, |records|, i);
      SingleAggregated(records[i]);
    }
  }

  lemma SingleRate(r: Record)
    requires Attested(r)
    ensures Single(r).rate == r.rate
  {
  }

  /** A cell of 100 seconds that served every slot. */
  function Served(rps: nat, p99: nat): Record
    requires rps > 0
  {
    Record(rps as real, true, 100, 100 * rps, 100 * rps, 0, 0, 0, 0, Some(p99))
  }

  /** A cell of 100 seconds that failed half of its slots. */
  function HalfFailed(rps: nat, p99: nat): Record
    requires rps > 0
  {
    Record(rps as real, true, 100, 100 * rps, 50 * rps, 50 * rps, 0, 0, 0, Some(p99))
  }

  function ServedPoint(rps: real, p99: real): Point {
    Point(rps, true, 1, Some(p99), 1.0, 0.0, 0.0, 0, 0, rps, rps, None, None)
  }

  function HalfFailedPoint(rps: real, p99: real, errors: nat): Point {
    Point(rps, true, 1, Some(p99), 0.5, 0.0, 0.0, errors, 0, rps / 2.0, rps, None, None)
  }

  lemma ServedIs(rps: nat, p99: nat)
    requires rps > 0
    ensures var r := Served(rps, p99);
      Attested(r) && r.rate == rps as real && Single(r) == ServedPoint(rps as real, p99 as real)
  {
    PerSecond(rps, 100);
    Share(rps, 100);
    Share(rps, 0);
  }

  lemma HalfFailedIs(rps: nat, p99: nat)
    requires rps > 0
    ensures var r := HalfFailed(rps, p99);
      Attested(r) && r.rate == rps as real && Single(r) == HalfFailedPoint(rps as real, p99 as real, 50 * rps)
  {
    PerSecond(rps, 100);
    PerSecond(rps, 50);
    Share(rps, 50);
    Share(rps, 0);
  }

  lemma PerSecond(n: nat, k: nat)
    ensures (k * n) as real / 100.0 == k as real * n as real / 100.0
  {
  }

  lemma Share(n: nat, k: nat)
    requires n > 0
    ensures (k * n) as real / (100 * n) as real == k as real / 100.0
  {
  }

  lemma FailingPointsBracket(o: Outcome)
    requires Rule([HalfFailedPoint(10.0, 100.0, 500), HalfFailedPoint(20.0, 100.0, 1000)], o)
    ensures o.Bracketed? && o.lower == 10.0
  {
    var ps := [HalfFailedPoint(10.0, 100.0, 500), HalfFailedPoint(20.0, 100.0, 1000)];
    InvalidExactly(ps);
    hide Rule, InvalidRates;
    assert Overloaded(ps, 1) && FirstOverloaded(ps, 1);
    CapacityPrecedence(ps, o, 1);
  }

  lemma FailingPointsHidden(o: Outcome)
    requires Rule([HalfFailedPoint(10.0, 100.0, 500), ServedPoint(20.0, 100.0)], o)
    ensures o.NotReached?
  {
    var ps := [HalfFailedPoint(10.0, 100.0, 500), ServedPoint(20.0, 100.0)];
    InvalidExactly(ps);
    hide Rule, InvalidRates;
    assert !Overloaded(ps, 1);
    NotReachedExactly(ps, o);
  }

  lemma ElevatedPointsBracket(o: Outcome)
    requires Rule([ServedPoint(10.0, 100.0), ServedPoint(20.0, 200.0), HalfFailedPoint(30.0, 100.0, 1500)], o)
    ensures o.Bracketed? && o.lower == 20.0 && o.upper == 30.0
    ensures LoneElevationBelow(
              [ServedPoint(10.0, 100.0), ServedPoint(20.0, 200.0), HalfFailedPoint(30.0, 100.0, 1500)], 2)
  {
    var ps := [ServedPoint(10.0, 100.0), ServedPoint(20.0, 200.0), HalfFailedPoint(30.0, 100.0, 1500)];
    InvalidExactly(ps);
    hide Rule, InvalidRates;
    assert !Overloaded(ps, 1) && Overloaded(ps, 2) && FirstOverloaded(ps, 2);
    assert !Confirmed(ps, 1) && !Confirmed(ps, 2);
    CapacityPrecedence(ps, o, 2);
  }

  /** A sweep that starts above the knee: the failing lowest rate is reported as the clean end. */
  lemma FailingBaselineBrackets(records: seq<Record>, ps: seq<Point>, o: Outcome)
    requires records == [HalfFailed(10, 100), HalfFailed(20, 100)] && AllAttested(records) && ps == Singles(records)
    requires Rule(ps, o)
    ensures Aggregates(records, ps) && o.Bracketed? && o.lower == ps[0].rate == 10.0 && Failing(ps[0])
  {
    hide Single, Read, HalfFailed, Served, Aggregates, Rule;
    HalfFailedIs(10, 100);
    HalfFailedIs(20, 100);
    SinglesAggregate(records);
    assert ps == [HalfFailedPoint(10.0, 100.0, 500), HalfFailedPoint(20.0, 100.0, 1000)];
    FailingPointsBracket(o);
  }

  /** The same lowest rate under a clean one: no knee is reported at all. */
  lemma FailingBaselineHidden(records: seq<Record>, ps: seq<Point>, o: Outcome)
    requires records == [HalfFailed(10, 100), Served(20, 100)] && AllAttested(records) && ps == Singles(records)
    requires Rule(ps, o)
    ensures Aggregates(records, ps) && o.NotReached? && Failing(ps[0])
  {
    hide Single, Read, HalfFailed, Served, Aggregates, Rule;
    HalfFailedIs(10, 100);
    ServedIs(20, 100);
    SinglesAggregate(records);
    assert ps == [HalfFailedPoint(10.0, 100.0, 500), ServedPoint(20.0, 100.0)];
    FailingPointsHidden(o);
  }

  /** An ascending sweep whose reported clean rate has twice the baseline's p99. */
  lemma ElevatedRateReportedClean(records: seq<Record>, ps: seq<Point>, o: Outcome)
    requires records == [Served(10, 100), Served(20, 200), HalfFailed(30, 100)] && AllAttested(records)
    requires ps == Singles(records) && Rule(ps, o)
    ensures Aggregates(records, ps) && LoneElevationBelow(ps, 2) && o.Bracketed? && o.lower == 20.0 && o.upper == 30.0
  {
    hide Single, Read, HalfFailed, Served, Aggregates, Rule, LoneElevationBelow;
    ServedIs(10, 100);
    ServedIs(20, 200);
    HalfFailedIs(30, 100);
    SinglesAggregate(records);
    assert ps == [ServedPoint(10.0, 100.0), ServedPoint(20.0, 200.0), HalfFailedPoint(30.0, 100.0, 1500)];
    ElevatedPointsBracket(o);
  }
}
