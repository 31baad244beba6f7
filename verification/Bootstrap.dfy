/** The preregistered confirmation of the knee between two rates: paired blocks, resampled medians, and
    the conditions that decide, in the five-block, ten-block and horizontal forms. */
module Bootstrap {
  import opened Common
  import opened Statistics

  // ----- resampling -----

  datatype Effects = Effects(success: real, drain: real, ratio: real, marginal: real)

  datatype Measure = DeltaSuccess | DeltaDrain | LatencyRatio | MarginalUseful

  datatype Intervals = Intervals(
    success: (real, real), drain: (real, real), ratio: (real, real), marginal: (real, real))

  /** How the bounds of an interval are read off the resampled medians. */
  datatype Rank = Interpolated | Nearest

  function Of(e: Effects, m: Measure): real {
    match m
    case DeltaSuccess => e.success
    case DeltaDrain => e.drain
    case LatencyRatio => e.ratio
    case MarginalUseful => e.marginal
  }

  function Values(effects: seq<Effects>, m: Measure): (values: seq<real>)
    ensures |values| == |effects|
  {
    seq(|effects|, i requires 0 <= i < |effects| => Of(effects[i], m))
  }

  /** A stream of resamples of whole blocks, however it was drawn. */
  ghost predicate Draws(draws: seq<seq<nat>>, count: nat) {
    && count > 0 && |draws| > 0
    && (forall i :: 0 <= i < |draws| ==> Draw(draws[i], count))
  }

  ghost predicate Draw(draw: seq<nat>, count: nat) {
    |draw| == count && forall k :: 0 <= k < |draw| ==> draw[k] < count
  }

  function Selected(values: seq<real>, draw: seq<nat>): (drawn: seq<real>)
    requires forall k :: 0 <= k < |draw| ==> draw[k] < |values|
    ensures |drawn| == |draw|
  {
    seq(|draw|, k requires 0 <= k < |draw| => values[draw[k]])
  }

  function Medians(values: seq<real>, draws: seq<seq<nat>>, n: nat): (medians: seq<real>)
    requires n <= |draws| && Draws(draws, |values|)
    ensures |medians| == n
  {
    if n == 0 then [] else Medians(values, draws, n - 1) + [Median(Selected(values, draws[n - 1]))]
  }

  function Bound(medians: seq<real>, p: real, rank: Rank): real
    requires |medians| > 0 && 0.0 < p <= 1.0
  {
    match rank
    case Interpolated => Percentile(medians, p)
    case Nearest => NearestRank(medians, p).value
  }

  function Interval(values: seq<real>, draws: seq<seq<nat>>, rank: Rank): (real, real)
    requires Draws(draws, |values|)
  {
    var medians := Medians(values, draws, |draws|);
    (Bound(medians, 0.025, rank), Bound(medians, 0.975, rank))
  }

  function AllIntervals(effects: seq<Effects>, draws: seq<seq<nat>>, rank: Rank): Intervals
    requires Draws(draws, |effects|)
  {
    Intervals(Interval(Values(effects, DeltaSuccess), draws, rank), Interval(Values(effects, DeltaDrain), draws, rank),
              Interval(Values(effects, LatencyRatio), draws, rank),
              Interval(Values(effects, MarginalUseful), draws, rank))
  }

  predicate IntervalsPass(i: Intervals) {
    i.success.1 < 0.0 && i.drain.0 > 0.0 && i.ratio.0 > 1.25 && i.marginal.1 < 1.0
  }

  method SelectDraw(effects: seq<Effects>, draw: seq<nat>, m: Measure) returns (drawn: seq<real>)
    requires Draw(draw, |effects|)
    ensures drawn == Selected(Values(effects, m), draw)
  {
    drawn := [];
    for k := 0 to |draw|
      invariant drawn == Selected(Values(effects, m), draw)[..k]
    {
      drawn := drawn + [Of(effects[draw[k]], m)];
    }
  }

  /** One pass over the draws, growing the four samples side by side from the same blocks. */
  method BootstrapMedianEffects(effects: seq<Effects>, draws: seq<seq<nat>>, rank: Rank) returns (intervals: Intervals)
    requires Draws(draws, |effects|)
    ensures intervals == AllIntervals(effects, draws, rank)
  {
    hide Median, Selected, Values, Of, Draw;
    ghost var s, d := Values(effects, DeltaSuccess), Values(effects, DeltaDrain);
    ghost var r, m := Values(effects, LatencyRatio), Values(effects, MarginalUseful);
    var success: seq<real>, drain: seq<real>, ratio: seq<real>, marginal: seq<real> := [], [], [], [];
    for i := 0 to |draws|
      invariant success == Medians(s, draws, i) && drain == Medians(d, draws, i)
      invariant ratio == Medians(r, draws, i) && marginal == Medians(m, draws, i)
    {
      var s1 := SelectDraw(effects, draws[i], DeltaSuccess);
      var d1 := SelectDraw(effects, draws[i], DeltaDrain);
      var r1 := SelectDraw(effects, draws[i], LatencyRatio);
      var m1 := SelectDraw(effects, draws[i], MarginalUseful);
      DrawLength(draws, |effects|, i);
      success, drain := success + [Median(s1)], drain + [Median(d1)];
      ratio, marginal := ratio + [Median(r1)], marginal + [Median(m1)];
    }
    intervals := Intervals(
      (Bound(success, 0.025, rank), Bound(success, 0.975, rank)),
      (Bound(drain, 0.025, rank), Bound(drain, 0.975, rank)),
      (Bound(ratio, 0.025, rank), Bound(ratio, 0.975, rank)),
      (Bound(marginal, 0.025, rank), Bound(marginal, 0.975, rank)));
  }

  lemma DrawLength(draws: seq<seq<nat>>, count: nat, i: nat)
    requires Draws(draws, count) && i < |draws|
    ensures |draws[i]| == count > 0 && Draw(draws[i], count)
  {
  }

  // ----- resampling never leaves the range of the blocks -----

  lemma WithinTransfers(xs: seq<real>, ys: seq<real>, r: real)
    requires Within(xs, r) && forall i :: 0 <= i < |xs| ==> Within(ys, xs[i])
    ensures Within(ys, r)
  {
    var i :| 0 <= i < |xs| && xs[i] <= r;
    var j :| 0 <= j < |xs| && r <= xs[j];
    assert Within(ys, xs[i]) && Within(ys, xs[j]);
  }

  lemma SelectedWithin(values: seq<real>, draw: seq<nat>)
    requires Draw(draw, |values|) && |draw| > 0
    ensures Within(values, Median(Selected(values, draw)))
  {
    hide Median;
    var drawn := Selected(values, draw);
    MedianWithin(drawn);
    forall k | 0 <= k < |drawn| ensures Within(values, drawn[k]) {
      assert drawn[k] == values[draw[k]];
    }
    WithinTransfers(drawn, values, Median(drawn));
  }

  lemma {:induction false} MediansWithin(values: seq<real>, draws: seq<seq<nat>>, n: nat)
    requires n <= |draws| && Draws(draws, |values|)
    ensures forall i :: 0 <= i < n ==> Within(values, Medians(values, draws, n)[i])
  {
    hide Median, Within, Draws, Selected;
    if n > 0 {
      MediansWithin(values, draws, n - 1);
      DrawLength(draws, |values|, n - 1);
      SelectedWithin(values, draws[n - 1]);
    }
  }

  /** For every stream of draws and either reading of percentiles, both ends of the interval lie between
      the smallest and the largest block value, in order. */
  lemma IntervalWithin(values: seq<real>, draws: seq<seq<nat>>, rank: Rank)
    requires Draws(draws, |values|)
    ensures var i := Interval(values, draws, rank); Within(values, i.0) && Within(values, i.1)
  {
    hide Within, Percentile, NearestRank, Medians;
    var medians := Medians(values, draws, |draws|);
    MediansWithin(values, draws, |draws|);
    PercentileWithin(medians, 0.025);
    PercentileWithin(medians, 0.975);
    NearestRankWithin(medians, 0.025);
    NearestRankWithin(medians, 0.975);
    WithinTransfers(medians, values, Bound(medians, 0.025, rank));
    WithinTransfers(medians, values, Bound(medians, 0.975, rank));
  }

  lemma IntervalOrdered(values: seq<real>, draws: seq<seq<nat>>)
    requires Draws(draws, |values|)
    ensures var i := Interval(values, draws, Interpolated); i.0 <= i.1
  {
    hide Percentile, Medians;
    PercentileMonotone(Medians(values, draws, |draws|), 0.025, 0.975);
  }

  /** Effects that point the same way in every block. */
  ghost predicate Unanimous(e: Effects) {
    e.success < 0.0 && e.drain > 0.0 && e.ratio > 1.25 && e.marginal < 1.0
  }

  /** Unanimous blocks pass all four interval checks, whatever is drawn. */
  lemma UnanimousPasses(effects: seq<Effects>, draws: seq<seq<nat>>, rank: Rank)
    requires Draws(draws, |effects|) && forall i :: 0 <= i < |effects| ==> Unanimous(effects[i])
    ensures IntervalsPass(AllIntervals(effects, draws, rank))
  {
    hide Interval, Draws;
    IntervalWithin(Values(effects, DeltaSuccess), draws, rank);
    IntervalWithin(Values(effects, DeltaDrain), draws, rank);
    IntervalWithin(Values(effects, LatencyRatio), draws, rank);
    IntervalWithin(Values(effects, MarginalUseful), draws, rank);
  }

  /** The converse fails: a stream that only ever draws one unanimous block passes every check, whatever
      the other blocks say. */
  lemma OneBlockPasses(effects: seq<Effects>, draws: seq<seq<nat>>, b: nat, rank: Rank)
    requires Draws(draws, |effects|) && b < |effects| && Unanimous(effects[b])
    requires forall i, k :: 0 <= i < |draws| && 0 <= k < |draws[i]| ==> draws[i][k] == b
    ensures IntervalsPass(AllIntervals(effects, draws, rank))
  {
    hide Interval;
    OneBlockInterval(Values(effects, DeltaSuccess), draws, b, rank);
    OneBlockInterval(Values(effects, DeltaDrain), draws, b, rank);
    OneBlockInterval(Values(effects, LatencyRatio), draws, b, rank);
    OneBlockInterval(Values(effects, MarginalUseful), draws, b, rank);
  }

  lemma OneBlockInterval(values: seq<real>, draws: seq<seq<nat>>, b: nat, rank: Rank)
    requires Draws(draws, |values|) && b < |values|
    requires forall i, k :: 0 <= i < |draws| && 0 <= k < |draws[i]| ==> draws[i][k] == b
    ensures Interval(values, draws, rank) == (values[b], values[b])
  {
    hide Percentile, NearestRank;
    var medians := Medians(values, draws, |draws|);
    OneBlockMedians(values, draws, |draws|, b);
    PercentileWithin(medians, 0.025);
    PercentileWithin(medians, 0.975);
    NearestRankWithin(medians, 0.025);
    NearestRankWithin(medians, 0.975);
  }

  lemma {:induction false} OneBlockMedians(values: seq<real>, draws: seq<seq<nat>>, n: nat, b: nat)
    requires n <= |draws| && Draws(draws, |values|) && b < |values|
    requires forall i, k :: 0 <= i < |draws| && 0 <= k < |draws[i]| ==> draws[i][k] == b
    ensures forall i :: 0 <= i < n ==> Medians(values, draws, n)[i] == values[b]
  {
    hide Median;
    if n > 0 {
      OneBlockMedians(values, draws, n - 1, b);
      MedianWithin(Selected(values, draws[n - 1]));
    }
  }

  // ----- what an interval says of the resampled medians -----

  /** Every resampled median is that of the drawn blocks' values. */
  lemma {:induction false} MediansRead(values: seq<real>, draws: seq<seq<nat>>, n: nat, i: nat)
    requires i < n <= |draws| && Draws(draws, |values|)
    ensures |draws[i]| == |values| && forall k :: 0 <= k < |draws[i]| ==> draws[i][k] < |values|
    ensures exists drawn: seq<real> :: |drawn| == |draws[i]|
              && (forall k :: 0 <= k < |drawn| ==> drawn[k] == values[draws[i][k]])
              && Medians(values, draws, n)[i] == Median(drawn)
  {
    hide Median;
    assert Draw(draws[i], |values|);
    if i == n - 1 {
      assert Medians(values, draws, n)[i] == Median(Selected(values, draws[i]));
    } else {
      MediansRead(values, draws, n - 1, i);
    }
  }

  lemma CeilBelow(x: real)
    ensures Ceil(x) as real < x + 1.0 && x - 1.0 < x.Floor as real <= x
  {
  }

  /** An interpolated bound has about its share of the population at or below it: no less, and below it no more
      than one value over. */
  lemma PercentileShare(xs: seq<real>, p: real)
    requires |xs| > 0 && 0.0 <= p <= 1.0
    ensures Sum(xs, AtMost(Percentile(xs, p))) as real > Scaled((|xs| - 1) as real, p)
    ensures (Sum(xs, Below(Percentile(xs, p))) as real) < Scaled((|xs| - 1) as real, p) + 1.0
  {
    var position, r := Position(|xs|, p), Percentile(xs, p);
    var s := Sorted(xs);
    AtBounds(s, position);
    CeilBelow(position);
    var low, high := position.Floor, Ceil(position);
    RankCounts(xs, low);
    RankCounts(xs, high);
    hide Sorted, Percentile, Sum;
    SumDominated(xs, AtMost(s[low]), AtMost(r));
    SumDominated(xs, Below(r), Below(s[high]));
  }

  lemma BoundShare(medians: seq<real>, p: real, rank: Rank)
    requires |medians| > 0 && 0.0 < p <= 1.0
    ensures Sum(medians, AtMost(Bound(medians, p, rank))) as real >= Scaled((|medians| - 1) as real, p)
    ensures (Sum(medians, Below(Bound(medians, p, rank))) as real) < Scaled((|medians| - 1) as real, p) + 1.0
  {
    hide Percentile, NearestRank, Sum;
    match rank
    case Interpolated => PercentileShare(medians, p);
    case Nearest =>
      NearestRankMeans(medians, p);
      assert Scaled(|medians| as real, p) == Scaled((|medians| - 1) as real, p) + p;
  }

  /** The ends of an interval cut off a fortieth of the resampled medians on each side, up to one of them. */
  lemma IntervalCovers(values: seq<real>, draws: seq<seq<nat>>, rank: Rank)
    requires Draws(draws, |values|)
    ensures var i, medians := Interval(values, draws, rank), Medians(values, draws, |draws|);
      var n := |draws| - 1;
      && n <= 40 * Sum(medians, AtMost(i.0)) && 40 * Sum(medians, Below(i.0)) < n + 40
      && 39 * n <= 40 * Sum(medians, AtMost(i.1)) && 40 * Sum(medians, Below(i.1)) < 39 * n + 40
  {
    hide Bound, Sum, Medians;
    var medians := Medians(values, draws, |draws|);
    BoundShare(medians, 0.025, rank);
    BoundShare(medians, 0.975, rank);
  }

  /** The four intervals are those of the four effects. */
  lemma IntervalsRead(effects: seq<Effects>, draws: seq<seq<nat>>, rank: Rank, values: seq<real>)
    requires Draws(draws, |effects|) && |values| == |effects|
    ensures var all := AllIntervals(effects, draws, rank);
      && ((forall i :: 0 <= i < |effects| ==> values[i] == effects[i].success) ==>
            all.success == Interval(values, draws, rank))
      && ((forall i :: 0 <= i < |effects| ==> values[i] == effects[i].drain) ==>
            all.drain == Interval(values, draws, rank))
      && ((forall i :: 0 <= i < |effects| ==> values[i] == effects[i].ratio) ==>
            all.ratio == Interval(values, draws, rank))
      && ((forall i :: 0 <= i < |effects| ==> values[i] == effects[i].marginal) ==>
            all.marginal == Interval(values, draws, rank))
  {
    hide Interval;
    assert (forall i :: 0 <= i < |effects| ==> values[i] == effects[i].success) ==>
      Values(effects, DeltaSuccess) == values;
    assert (forall i :: 0 <= i < |effects| ==> values[i] == effects[i].drain) ==>
      Values(effects, DeltaDrain) == values;
    assert (forall i :: 0 <= i < |effects| ==> values[i] == effects[i].ratio) ==>
      Values(effects, LatencyRatio) == values;
    assert (forall i :: 0 <= i < |effects| ==> values[i] == effects[i].marginal) ==>
      Values(effects, MarginalUseful) == values;
  }

  // ----- the blocks -----

  const CLEAN_P99_LIMIT_US := 35_363.0

  datatype Cell = Cell(
    success: real, drain: real, errors: nat, inFlightDrops: nat, healthViolations: nat,
    telemetryComplete: bool, telemetrySupporting: bool, p99: Option<real>, useful: real)

  datatype Block = Block(low: Cell, high: Cell)

  predicate Clean(b: Block) {
    && b.low.success >= 0.99 && b.low.drain <= 0.01
    && b.low.errors == 0 && b.low.inFlightDrops == 0 && b.low.healthViolations == 0
    && b.low.telemetryComplete && b.low.telemetrySupporting
    && b.low.p99.Some? && b.low.p99.value <= CLEAN_P99_LIMIT_US
  }

  function Ratio(b: Block): Option<real> {
    if b.low.p99.Some? && b.high.p99.Some? && b.low.p99.value > 0.0
    then Some(b.high.p99.value / b.low.p99.value) else None
  }

  predicate Signal(b: Block) {
    b.high.success < 0.99 || b.high.drain > 0.01 || b.high.errors > 0
  }

  predicate Stressed(b: Block) {
    Signal(b) && Ratio(b).Some? && Ratio(b).value > 1.25
  }

  predicate DirectionsAgree(b: Block) {
    && b.high.success - b.low.success < 0.0 && b.high.drain - b.low.drain > 0.0
    && Ratio(b).Some? && Ratio(b).value > 1.0
    && b.high.useful - b.low.useful < 1.0
  }

  function EffectsOf(b: Block): Option<Effects> {
    match Ratio(b)
    case None => None
    case Some(ratio) => Some(Effects(b.high.success - b.low.success, b.high.drain - b.low.drain, ratio,
                                     b.high.useful - b.low.useful))
  }

  /** The sample coefficient of variation exists and is at most the limit, compared without roots. */
  predicate VariationAtMost(xs: seq<Option<real>>, limit: real) {
    && |xs| >= 2 && (forall i :: 0 <= i < |xs| ==> xs[i].Some?)
    && var values := seq(|xs|, i requires 0 <= i < |xs| => xs[i].value);
    var mean := Total(values) / |xs| as real;
    mean > 0.0 && SquaredDeviation(values, mean) <= (limit * mean) * (limit * mean) * (|xs| - 1) as real
  }

  predicate VariabilityPasses(blocks: seq<Block>) {
    && VariationAtMost(seq(|blocks|, i requires 0 <= i < |blocks| => Some(blocks[i].low.useful)), 0.02)
    && VariationAtMost(seq(|blocks|, i requires 0 <= i < |blocks| => Some(blocks[i].high.useful)), 0.02)
    && VariationAtMost(seq(|blocks|, i requires 0 <= i < |blocks| => blocks[i].low.p99), 0.10)
    && VariationAtMost(seq(|blocks|, i requires 0 <= i < |blocks| => blocks[i].high.p99), 0.20)
  }

  datatype Conditions = Conditions(
    attributed: bool, clean: bool, stressed: bool, directions: bool, bootstrap: bool, variability: bool)

  datatype Decision = Decision(confirmed: bool, conditions: Conditions)

  // ----- the conditions on a block, read off the fields -----

  /** The low rate serves: 99% success, at most 1% drained, nothing wrong, full telemetry, p99 within 35.363 ms. */
  ghost predicate ServesLow(c: Cell) {
    && 100.0 * c.success >= 99.0 && 100.0 * c.drain <= 1.0
    && c.errors + c.inFlightDrops + c.healthViolations == 0 && c.telemetryComplete && c.telemetrySupporting
    && c.p99.Some? && c.p99.value / 1000.0 <= 35.363
  }

  /** The high rate shows stress, with a p99 more than five quarters of the low rate's. */
  ghost predicate StressedHigh(b: Block) {
    && !(100.0 * b.high.success >= 99.0 && 100.0 * b.high.drain <= 1.0 && b.high.errors == 0)
    && b.low.p99.Some? && b.high.p99.Some? && b.low.p99.value > 0.0
    && 4.0 * b.high.p99.value > 5.0 * b.low.p99.value
  }

  /** Everything is worse at the high rate, and less than one more request a second is useful. */
  ghost predicate WorseHigh(b: Block) {
    && b.high.success < b.low.success && b.high.drain > b.low.drain && b.high.useful < b.low.useful + 1.0
    && b.low.p99.Some? && b.high.p99.Some? && b.high.p99.value > b.low.p99.value > 0.0
  }

  lemma BlockReads(b: Block)
    ensures Clean(b) <==> ServesLow(b.low)
    ensures Stressed(b) <==> StressedHigh(b)
    ensures DirectionsAgree(b) <==> WorseHigh(b)
  {
    if b.low.p99.Some? && b.high.p99.Some? && b.low.p99.value > 0.0 {
      RatioCompare(b.high.p99.value, b.low.p99.value, 1.25);
      RatioCompare(b.high.p99.value, b.low.p99.value, 1.0);
    }
  }

  /** The differences of a block, and its p99 ratio. */
  ghost predicate EffectsMeasured(e: Effects, b: Block) {
    && b.low.p99.Some? && b.high.p99.Some? && b.low.p99.value > 0.0 && e.ratio * b.low.p99.value == b.high.p99.value
    && e.success == b.high.success - b.low.success && e.drain == b.high.drain - b.low.drain
    && e.marginal == b.high.useful - b.low.useful
  }

  lemma EffectsRead(e: Effects, b: Block)
    ensures EffectsOf(b) == Some(e) <==> EffectsMeasured(e, b)
  {
    if b.low.p99.Some? && b.high.p99.Some? && b.low.p99.value > 0.0 {
      QuotientIs(b.high.p99.value, b.low.p99.value, e.ratio);
    }
  }

  lemma QuotientIs(a: real, b: real, q: real)
    requires b > 0.0
    ensures a / b == q <==> q * b == a
  {
    RatioCompare(a, b, q);
  }

  /** The sample coefficient of variation of a column, all of it present, is at most the limit. */
  ghost predicate VariesAtMost(xs: seq<real>, limit: real) {
    && |xs| >= 2 && Total(xs) > 0.0
    && var mean := Total(xs) / |xs| as real;
    SquaredDeviation(xs, mean) / (|xs| - 1) as real <= (limit * mean) * (limit * mean)
  }

  /** Column by column: 2% for the useful throughputs, 10% for the p99s at the low rate and 20% at the high. */
  ghost predicate ColumnsSteady(blocks: seq<Block>, lowUseful: seq<real>, highUseful: seq<real>, lowP99: seq<real>,
                                highP99: seq<real>)
  {
    && |lowUseful| == |highUseful| == |lowP99| == |highP99| == |blocks|
    && (forall i :: 0 <= i < |blocks| ==>
          && lowUseful[i] == blocks[i].low.useful && highUseful[i] == blocks[i].high.useful
          && Some(lowP99[i]) == blocks[i].low.p99 && Some(highP99[i]) == blocks[i].high.p99)
    && VariesAtMost(lowUseful, 0.02) && VariesAtMost(highUseful, 0.02)
    && VariesAtMost(lowP99, 0.10) && VariesAtMost(highP99, 0.20)
  }

  ghost predicate Repeats(blocks: seq<Block>) {
    exists a, b, c, d :: ColumnsSteady(blocks, a, b, c, d)
  }

  lemma VariationReads(column: seq<Option<real>>, xs: seq<real>, limit: real)
    requires |xs| == |column| && forall i :: 0 <= i < |xs| ==> column[i] == Some(xs[i])
    ensures VariationAtMost(column, limit) <==> VariesAtMost(xs, limit)
  {
    if |xs| >= 2 {
      var mean := Total(xs) / |xs| as real;
      assert seq(|column|, i requires 0 <= i < |column| => column[i].value) == xs;
      assert mean > 0.0 <==> Total(xs) > 0.0 by { RatioCompare(Total(xs), |xs| as real, 0.0); }
      RatioCompare(SquaredDeviation(xs, mean), (|xs| - 1) as real, (limit * mean) * (limit * mean));
    }
  }

  function Presents(column: seq<Option<real>>): (xs: seq<real>)
    requires forall i :: 0 <= i < |column| ==> column[i].Some?
    ensures |xs| == |column| && forall i :: 0 <= i < |xs| ==> column[i] == Some(xs[i])
  {
    seq(|column|, i requires 0 <= i < |column| => column[i].value)
  }

  lemma VariabilityReads(blocks: seq<Block>)
    ensures VariabilityPasses(blocks) <==> Repeats(blocks)
  {
    hide VariesAtMost, VariationAtMost;
    var a := seq(|blocks|, i requires 0 <= i < |blocks| => Some(blocks[i].low.useful));
    var b := seq(|blocks|, i requires 0 <= i < |blocks| => Some(blocks[i].high.useful));
    var c := seq(|blocks|, i requires 0 <= i < |blocks| => blocks[i].low.p99);
    var d := seq(|blocks|, i requires 0 <= i < |blocks| => blocks[i].high.p99);
    if VariabilityPasses(blocks) {
      AllPresent(c, 0.10);
      AllPresent(d, 0.20);
      VariationReads(a, Presents(a), 0.02);
      VariationReads(b, Presents(b), 0.02);
      VariationReads(c, Presents(c), 0.10);
      VariationReads(d, Presents(d), 0.20);
      assert ColumnsSteady(blocks, Presents(a), Presents(b), Presents(c), Presents(d));
    }
    if e, f, g, h :| ColumnsSteady(blocks, e, f, g, h) {
      VariationReads(a, e, 0.02);
      VariationReads(b, f, 0.02);
      VariationReads(c, g, 0.10);
      VariationReads(d, h, 0.20);
    }
  }

  lemma AllPresent(column: seq<Option<real>>, limit: real)
    requires VariationAtMost(column, limit)
    ensures forall i :: 0 <= i < |column| ==> column[i].Some?
  {
  }

  /** The three conditions each block must meet by itself. */
  ghost predicate BlockConfirms(b: Block) {
    ServesLow(b.low) && StressedHigh(b) && WorseHigh(b)
  }

  ghost predicate AllConfirm(blocks: seq<Block>) {
    forall i :: 0 <= i < |blocks| ==> BlockConfirms(blocks[i])
  }

  /** What the blocks' effect vectors are when every latency ratio exists. */
  ghost predicate EffectVectors(effects: seq<Effects>, blocks: seq<Block>) {
    |effects| == |blocks| && forall i :: 0 <= i < |blocks| ==> EffectsMeasured(effects[i], blocks[i])
  }

  /** The four intervals keep clear of no effect, of a ratio of five quarters, and of one more useful request. */
  ghost predicate AllClear(i: Intervals) {
    i.success.1 < 0.0 < i.drain.0 && 4.0 * i.ratio.0 > 5.0 && i.marginal.1 < 1.0
  }

  lemma ConfirmingUnanimous(effects: seq<Effects>, blocks: seq<Block>)
    requires EffectVectors(effects, blocks)
    requires forall i :: 0 <= i < |blocks| ==> Stressed(blocks[i]) && DirectionsAgree(blocks[i])
    ensures forall i :: 0 <= i < |effects| ==> Unanimous(effects[i])
  {
    forall i | 0 <= i < |effects| ensures Unanimous(effects[i]) {
      assert Stressed(blocks[i]) && DirectionsAgree(blocks[i]);
      EffectsRead(effects[i], blocks[i]);
    }
  }

  /** Evaluates five or ten blocks.  The bootstrap is computed and required, and never decides: the result
      is confirmed exactly when attribution, variability and every single block agree. */
  method Evaluate(blocks: seq<Block>, attributed: bool, draws: seq<seq<nat>>) returns (d: Decision)
    requires |blocks| == 5 || |blocks| == 10
    requires Draws(draws, |blocks|)
    ensures d.confirmed <==> attributed && AllConfirm(blocks) && Repeats(blocks)
    ensures d.conditions.attributed == attributed && d.conditions.variability == Repeats(blocks)
    ensures d.conditions.clean <==> forall i :: 0 <= i < |blocks| ==> ServesLow(blocks[i].low)
    ensures d.conditions.stressed <==> forall i :: 0 <= i < |blocks| ==> StressedHigh(blocks[i])
    ensures d.conditions.directions <==> forall i :: 0 <= i < |blocks| ==> WorseHigh(blocks[i])
    ensures d.conditions.stressed && d.conditions.directions ==> d.conditions.bootstrap
    ensures forall effects :: EffectVectors(effects, blocks) ==>
              d.conditions.bootstrap == AllClear(AllIntervals(effects, draws, Interpolated))
    ensures d.conditions.bootstrap ==> exists effects :: EffectVectors(effects, blocks)
  {
    hide Clean, Stressed, DirectionsAgree, EffectsOf, VariabilityPasses, AllIntervals, Unanimous, Draws,
         ServesLow, StressedHigh, WorseHigh, EffectsMeasured, Repeats;
    BlocksRead(blocks);
    VariabilityReads(blocks);
    var clean, stressed, directions, complete := true, true, true, true;
    var effects: seq<Effects> := [];
    for i := 0 to |blocks|
      invariant clean <==> forall k :: 0 <= k < i ==> Clean(blocks[k])
      invariant stressed <==> forall k :: 0 <= k < i ==> Stressed(blocks[k])
      invariant directions <==> forall k :: 0 <= k < i ==> DirectionsAgree(blocks[k])
      invariant complete <==> forall k :: 0 <= k < i ==> EffectsOf(blocks[k]).Some?
      invariant complete ==> |effects| == i && forall k :: 0 <= k < i ==> EffectsOf(blocks[k]) == Some(effects[k])
    {
      clean := clean && Clean(blocks[i]);
      stressed := stressed && Stressed(blocks[i]);
      directions := directions && DirectionsAgree(blocks[i]);
      match EffectsOf(blocks[i])
      case None => complete := false;
      case Some(e) => effects := effects + [e];
    }
    StressedMeasured(blocks);
    var bootstrap := false;
    if complete {
      assert EffectVectors(effects, blocks);
      var intervals := BootstrapMedianEffects(effects, draws, Interpolated);
      bootstrap := IntervalsPass(intervals);
      if stressed && directions {
        ConfirmingUnanimous(effects, blocks);
        UnanimousPasses(effects, draws, Interpolated);
      }
    }
    forall other | EffectVectors(other, blocks) ensures complete && other == effects {
      VectorsComplete(other, blocks);
      SameVectors(other, effects, blocks);
    }
    var variability := VariabilityPasses(blocks);
    d := Decision(attributed && clean && stressed && directions && bootstrap && variability,
                  Conditions(attributed, clean, stressed, directions, bootstrap, variability));
  }

  lemma BlocksRead(blocks: seq<Block>)
    ensures forall i :: 0 <= i < |blocks| ==>
              && (Clean(blocks[i]) <==> ServesLow(blocks[i].low)) && (Stressed(blocks[i]) <==> StressedHigh(blocks[i]))
              && (DirectionsAgree(blocks[i]) <==> WorseHigh(blocks[i]))
    ensures forall i, e :: 0 <= i < |blocks| ==> (EffectsOf(blocks[i]) == Some(e) <==> EffectsMeasured(e, blocks[i]))
  {
    hide Clean, Stressed, DirectionsAgree, EffectsOf, ServesLow, StressedHigh, WorseHigh, EffectsMeasured;
    forall i | 0 <= i < |blocks|
      ensures Clean(blocks[i]) <==> ServesLow(blocks[i].low)
      ensures Stressed(blocks[i]) <==> StressedHigh(blocks[i])
      ensures DirectionsAgree(blocks[i]) <==> WorseHigh(blocks[i])
    {
      BlockReads(blocks[i]);
    }
    forall i, e | 0 <= i < |blocks| ensures EffectsOf(blocks[i]) == Some(e) <==> EffectsMeasured(e, blocks[i]) {
      EffectsRead(e, blocks[i]);
    }
  }

  lemma StressedMeasured(blocks: seq<Block>)
    ensures forall i :: 0 <= i < |blocks| && Stressed(blocks[i]) ==> EffectsOf(blocks[i]).Some?
  {
  }

  lemma VectorsComplete(effects: seq<Effects>, blocks: seq<Block>)
    requires EffectVectors(effects, blocks)
    ensures forall i :: 0 <= i < |blocks| ==> EffectsOf(blocks[i]) == Some(effects[i])
  {
    hide EffectsMeasured, EffectsOf;
    forall i | 0 <= i < |blocks| ensures EffectsOf(blocks[i]) == Some(effects[i]) {
      EffectsRead(effects[i], blocks[i]);
    }
  }

  lemma SameVectors(a: seq<Effects>, b: seq<Effects>, blocks: seq<Block>)
    requires EffectVectors(a, blocks) && EffectVectors(b, blocks)
    ensures a == b
  {
    hide EffectsMeasured, EffectsOf;
    forall i | 0 <= i < |a| ensures a[i] == b[i] {
      EffectsRead(a[i], blocks[i]);
      EffectsRead(b[i], blocks[i]);
    }
  }
}
