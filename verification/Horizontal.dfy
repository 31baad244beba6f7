/** The decision of a horizontal campaign: clean and stressed cells, paired directions, nearest-rank
    bootstrap intervals, variability and sentinel drift, with every division that can fail. */
module Horizontal {
  import opened Common
  import opened Statistics
  import opened Bootstrap

  type NonNegative = x: real | 0.0 <= x

  /** An aggregated cell; `p99` is the median endpoint p99 in microseconds, None without a population. */
  datatype ScaleCell = ScaleCell(
    success: real, drain: real, errors: nat, p99: Option<NonNegative>, useful: NonNegative, aggregate: NonNegative)

  /** Five pairs of knee cells, and the sentinels before and after. */
  datatype Campaign = Campaign(
    low: seq<ScaleCell>, high: seq<ScaleCell>, pre35: ScaleCell, post35: ScaleCell,
    r1Pre41: ScaleCell, r1Pre42: ScaleCell, r1Post41: ScaleCell, r1Post42: ScaleCell)

  datatype Thresholds = Thresholds(
    successMin: real, drainMax: real, cleanP99Ms: real, ratioMin: real, usefulDeltaMax: real, p99RatioMax: real)

  datatype Status = ConfirmedAtRung | AtOrBelowLowRate | AboveHighRate | Inconclusive

  // ----- one cell, one block -----

  predicate Clean41(c: ScaleCell, th: Thresholds) {
    c.success >= th.successMin && c.drain <= th.drainMax && c.errors == 0
    && c.p99.Some? && c.p99.value <= th.cleanP99Ms * 1000.0
  }

  predicate Stressed42(c: ScaleCell, th: Thresholds) {
    c.success < th.successMin || c.drain > th.drainMax || c.errors > 0
  }

  /** The quotient of two p99s; None where taking it raises. */
  function Quotient(a: Option<NonNegative>, b: Option<NonNegative>): Option<real> {
    if a.Some? && b.Some? && b.value != 0.0 then Some(a.value / b.value) else None
  }

  /** One p99 is more than `factor` times another. */
  predicate Exceeds(a: Option<NonNegative>, b: Option<NonNegative>, factor: real) {
    a.Some? && b.Some? && a.value > factor * b.value
  }

  lemma QuotientExceeds(a: Option<NonNegative>, b: Option<NonNegative>, factor: real)
    requires Quotient(a, b).Some?
    ensures Quotient(a, b).value > factor <==> Exceeds(a, b, factor)
  {
    RatioCompare(a.value, b.value, factor);
  }

  function BlockEffects(low: ScaleCell, high: ScaleCell): Option<Effects> {
    match Quotient(high.p99, low.p99)
    case None => None
    case Some(ratio) =>
      Some(Effects(high.success - low.success, high.drain - low.drain, ratio, high.useful - low.useful))
  }

  /** The paired effects all point the stressed way, without a quotient. */
  predicate BlockAgrees(low: ScaleCell, high: ScaleCell) {
    && high.success < low.success && high.drain > low.drain && Exceeds(high.p99, low.p99, 1.0)
    && high.useful - low.useful < 1.0
  }

  predicate BlockStressed(low: ScaleCell, high: ScaleCell, th: Thresholds) {
    Stressed42(high, th) && Exceeds(high.p99, low.p99, th.ratioMin)
  }

  // ----- variability -----

  /** A test that can also raise; a conjunction stops at the first test that does not pass. */
  datatype Gate = Passes | Fails | Raises

  function Test(holds: bool): Gate { if holds then Passes else Fails }

  function Then(a: Gate, b: Gate): Gate { if a.Passes? then b else a }

  /** The sample coefficient of variation against a limit; a zero mean leaves none to compare. */
  function VariationGate(xs: seq<real>, limit: real): Gate
    requires |xs| >= 2
  {
    var mean := Total(xs) / |xs| as real;
    if mean == 0.0 then Raises
    else Test(SquaredDeviation(xs, mean) <= (limit * mean) * (limit * mean) * (|xs| - 1) as real)
  }

  function Useful(cells: seq<ScaleCell>): (xs: seq<real>)
    ensures |xs| == |cells|
  {
    seq(|cells|, i requires 0 <= i < |cells| => cells[i].useful)
  }

  function P99s(cells: seq<ScaleCell>): (xs: seq<real>)
    requires forall i :: 0 <= i < |cells| ==> cells[i].p99.Some?
    ensures |xs| == |cells|
  {
    seq(|cells|, i requires 0 <= i < |cells| => cells[i].p99.value)
  }

  predicate Paired(c: Campaign) { |c.low| == |c.high| == 5 }

  predicate Measured(c: Campaign)
    requires Paired(c)
  {
    forall i :: 0 <= i < 5 ==> c.low[i].p99.Some? && c.low[i].p99.value != 0.0 && c.high[i].p99.Some?
  }

  function Variability(c: Campaign): Gate
    requires Paired(c) && Measured(c)
  {
    Then(VariationGate(Useful(c.low), 0.02),
         Then(VariationGate(Useful(c.high), 0.02),
              Then(VariationGate(P99s(c.low), 0.10), VariationGate(P99s(c.high), 0.20))))
  }

  // ----- sentinels -----

  predicate Positive(x: Option<NonNegative>) { x.Some? && x.value > 0.0 }

  /** The larger of two is at most `factor` times the smaller. */
  predicate Together(a: Option<NonNegative>, b: Option<NonNegative>, factor: real) {
    a.Some? && b.Some? && a.value <= factor * b.value && b.value <= factor * a.value
  }

  predicate Near(after: real, before: real, delta: real) {
    -(delta * before) <= after - before <= delta * before
  }

  predicate ScaleSteady(c: Campaign, th: Thresholds) {
    && c.pre35.errors == 0 && c.post35.errors == 0 && c.pre35.drain <= 0.01 && c.post35.drain <= 0.01
    && Near(c.post35.aggregate, c.pre35.aggregate, th.usefulDeltaMax)
    && Together(c.pre35.p99, c.post35.p99, th.p99RatioMax)
  }

  predicate SentinelsClean(c: Campaign, th: Thresholds) {
    Clean41(c.r1Pre41, th) && Clean41(c.r1Post41, th) && Stressed42(c.r1Pre42, th) && Stressed42(c.r1Post42, th)
  }

  /** The single-replica sentinels; a missing 42 p99 raises only when the tests before it pass. */
  function R1Gate(c: Campaign, th: Thresholds): Gate {
    Then(Test(SentinelsClean(c, th)),
    Then(if c.r1Pre42.p99.None? then Raises else Test(Exceeds(c.r1Pre42.p99, c.r1Pre41.p99, 1.25)),
    Then(if c.r1Post42.p99.None? then Raises else Test(Exceeds(c.r1Post42.p99, c.r1Post41.p99, 1.25)),
         Test(Near(c.r1Post41.useful, c.r1Pre41.useful, 0.02) && Together(c.r1Post41.p99, c.r1Pre41.p99, 1.20)))))
  }

  /** Every quotient that is always taken exists. */
  predicate QuotientsExist(c: Campaign)
    requires Paired(c)
  {
    && Measured(c)
    && c.pre35.aggregate > 0.0 && Positive(c.pre35.p99) && Positive(c.post35.p99)
    && c.r1Pre41.useful > 0.0 && Positive(c.r1Pre41.p99) && Positive(c.r1Post41.p99)
  }

  /** Exactly when the decision returns a status at all. */
  predicate Decidable(c: Campaign, th: Thresholds)
    requires Paired(c)
  {
    QuotientsExist(c) && !Variability(c).Raises? && !R1Gate(c, th).Raises?
  }

  // ----- the conditions, read off the fields -----

  /** Too little success, too much drained work, or any error. */
  ghost predicate ShowsStress(c: ScaleCell, th: Thresholds) {
    !(c.success >= th.successMin && c.drain <= th.drainMax && c.errors == 0)
  }

  /** No stress, and a p99 within the clean limit in milliseconds. */
  ghost predicate ServesCleanly(c: ScaleCell, th: Thresholds) {
    !ShowsStress(c, th) && c.p99.Some? && c.p99.value / 1000.0 <= th.cleanP99Ms
  }

  /** A p99 more than five quarters of another. */
  ghost predicate AQuarterAbove(high: ScaleCell, low: ScaleCell) {
    high.p99.Some? && low.p99.Some? && 4.0 * high.p99.value > 5.0 * low.p99.value
  }

  /** Useful throughput within 2%, and p99s within a factor of 1.2. */
  ghost predicate SentinelSteady(before: ScaleCell, after: ScaleCell) {
    && 49.0 * before.useful <= 50.0 * after.useful <= 51.0 * before.useful
    && before.p99.Some? && after.p99.Some?
    && 5.0 * after.p99.value <= 6.0 * before.p99.value && 5.0 * before.p99.value <= 6.0 * after.p99.value
  }

  ghost predicate SentinelsServe(c: Campaign, th: Thresholds) {
    && ServesCleanly(c.r1Pre41, th) && ServesCleanly(c.r1Post41, th)
    && ShowsStress(c.r1Pre42, th) && ShowsStress(c.r1Post42, th)
  }

  lemma CellReads(c: ScaleCell, th: Thresholds)
    ensures Clean41(c, th) <==> ServesCleanly(c, th)
    ensures Stressed42(c, th) <==> ShowsStress(c, th)
  {
    if c.p99.Some? { RatioCompare(c.p99.value, 1000.0, th.cleanP99Ms); }
  }

  /** The single-replica sentinels pass exactly when, before and after, 41 serves cleanly and 42 shows stress with
      a p99 a quarter above 41's, and 41 itself kept steady; they raise exactly where a needed 42 p99 is missing. */
  lemma R1Exactly(c: Campaign, th: Thresholds)
    ensures R1Gate(c, th).Passes? <==>
      && SentinelsServe(c, th) && AQuarterAbove(c.r1Pre42, c.r1Pre41) && AQuarterAbove(c.r1Post42, c.r1Post41)
      && SentinelSteady(c.r1Pre41, c.r1Post41)
    ensures R1Gate(c, th).Raises? <==>
      && SentinelsServe(c, th)
      && (c.r1Pre42.p99.None? || (AQuarterAbove(c.r1Pre42, c.r1Pre41) && c.r1Post42.p99.None?))
  {
    CellReads(c.r1Pre41, th);
    CellReads(c.r1Post41, th);
    CellReads(c.r1Pre42, th);
    CellReads(c.r1Post42, th);
    hide Clean41, Stressed42, ShowsStress;
  }

  /** The coefficient of variation of a column exists and is at most the limit. */
  ghost predicate VariesAtMost(xs: seq<real>, limit: real) {
    && |xs| >= 2 && Total(xs) != 0.0
    && var mean := Total(xs) / |xs| as real;
    SquaredDeviation(xs, mean) / (|xs| - 1) as real <= (limit * mean) * (limit * mean)
  }

  lemma VariationReads(xs: seq<real>, limit: real)
    requires |xs| >= 2
    ensures VariationGate(xs, limit).Passes? <==> VariesAtMost(xs, limit)
    ensures VariationGate(xs, limit).Raises? <==> Total(xs) == 0.0
  {
    var mean := Total(xs) / |xs| as real;
    assert mean == 0.0 <==> Total(xs) == 0.0;
    RatioCompare(SquaredDeviation(xs, mean), (|xs| - 1) as real, (limit * mean) * (limit * mean));
  }

  /** Column by column: 2% for the useful throughputs, 10% for the p99s at the low rate and 20% at the high. */
  lemma VariabilityExactly(c: Campaign)
    requires Paired(c) && Measured(c)
    ensures Variability(c).Passes? <==>
      && VariesAtMost([c.low[0].useful, c.low[1].useful, c.low[2].useful, c.low[3].useful, c.low[4].useful], 0.02)
      && VariesAtMost([c.high[0].useful, c.high[1].useful, c.high[2].useful, c.high[3].useful, c.high[4].useful], 0.02)
      && VariesAtMost([c.low[0].p99.value, c.low[1].p99.value, c.low[2].p99.value, c.low[3].p99.value,
                       c.low[4].p99.value], 0.10)
      && VariesAtMost([c.high[0].p99.value, c.high[1].p99.value, c.high[2].p99.value, c.high[3].p99.value,
                       c.high[4].p99.value], 0.20)
    ensures Variability(c).Raises? <==>
      || Total(Useful(c.low)) == 0.0
      || (VariesAtMost(Useful(c.low), 0.02) && Total(Useful(c.high)) == 0.0)
      || (VariesAtMost(Useful(c.low), 0.02) && VariesAtMost(Useful(c.high), 0.02) && Total(P99s(c.low)) == 0.0)
      || (VariesAtMost(Useful(c.low), 0.02) && VariesAtMost(Useful(c.high), 0.02) && VariesAtMost(P99s(c.low), 0.10)
          && Total(P99s(c.high)) == 0.0)
  {
    hide VariationGate, VariesAtMost;
    ColumnsRead(c);
    VariationReads(Useful(c.low), 0.02);
    VariationReads(Useful(c.high), 0.02);
    VariationReads(P99s(c.low), 0.10);
    VariationReads(P99s(c.high), 0.20);
  }

  lemma ColumnsRead(c: Campaign)
    requires Paired(c) && Measured(c)
    ensures Useful(c.low) == [c.low[0].useful, c.low[1].useful, c.low[2].useful, c.low[3].useful, c.low[4].useful]
    ensures Useful(c.high) == [c.high[0].useful, c.high[1].useful, c.high[2].useful, c.high[3].useful, c.high[4].useful]
    ensures P99s(c.low) == [c.low[0].p99.value, c.low[1].p99.value, c.low[2].p99.value, c.low[3].p99.value,
                            c.low[4].p99.value]
    ensures P99s(c.high) == [c.high[0].p99.value, c.high[1].p99.value, c.high[2].p99.value, c.high[3].p99.value,
                             c.high[4].p99.value]
  {
  }

  /** The reference cells: no errors, at most 1% drained, throughput and p99 within the drift limits. */
  ghost predicate ReferenceSteady(before: ScaleCell, after: ScaleCell, th: Thresholds) {
    && before.errors + after.errors == 0 && 100.0 * before.drain <= 1.0 && 100.0 * after.drain <= 1.0
    && (1.0 - th.usefulDeltaMax) * before.aggregate <= after.aggregate <= (1.0 + th.usefulDeltaMax) * before.aggregate
    && before.p99.Some? && after.p99.Some?
    && after.p99.value <= th.p99RatioMax * before.p99.value && before.p99.value <= th.p99RatioMax * after.p99.value
  }

  lemma ScaleReads(c: Campaign, th: Thresholds)
    ensures ScaleSteady(c, th) <==> ReferenceSteady(c.pre35, c.post35, th)
  {
    var d, x := th.usefulDeltaMax, c.pre35.aggregate;
    assert (1.0 - d) * x == x - d * x && (1.0 + d) * x == x + d * x;
  }

  /** One block crosses the knee: clean at the low rate, stressed past the ratio at the high one, and worse there in
      success, drain, p99 and useful throughput. */
  ghost predicate Crosses(low: ScaleCell, high: ScaleCell, th: Thresholds) {
    && ServesCleanly(low, th) && ShowsStress(high, th)
    && high.p99.Some? && high.p99.value > th.ratioMin * low.p99.value && high.p99.value > low.p99.value
    && high.success < low.success && high.drain > low.drain && high.useful < low.useful + 1.0
  }

  /** What a confirmation takes, field by field. */
  lemma ConfirmsExactly(c: Campaign, th: Thresholds)
    requires Paired(c) && Measured(c)
    ensures Confirms(c, th) <==>
      && (forall i :: 0 <= i < 5 ==> Crosses(c.low[i], c.high[i], th))
      && Variability(c).Passes? && ReferenceSteady(c.pre35, c.post35, th) && R1Gate(c, th).Passes?
  {
    ScaleReads(c, th);
    hide Variability, R1Gate, ScaleSteady, ReferenceSteady;
    forall i | 0 <= i < 5
      ensures Crosses(c.low[i], c.high[i], th) <==>
        Clean41(c.low[i], th) && BlockStressed(c.low[i], c.high[i], th) && BlockAgrees(c.low[i], c.high[i])
    {
      CellReads(c.low[i], th);
      CellReads(c.high[i], th);
    }
  }

  /** A p99 that cannot be a denominator: missing, or zero. */
  ghost predicate NoBase(c: ScaleCell) { c.p99 == None || c.p99 == Some(0.0) }

  /** Some quotient that is always taken does not exist exactly for these fields. */
  lemma QuotientsMissing(c: Campaign)
    requires Paired(c)
    ensures !QuotientsExist(c) <==>
      || (exists i :: 0 <= i < 5 && (NoBase(c.low[i]) || c.high[i].p99 == None))
      || c.pre35.aggregate == 0.0 || NoBase(c.pre35) || NoBase(c.post35)
      || c.r1Pre41.useful == 0.0 || NoBase(c.r1Pre41) || NoBase(c.r1Post41)
  {
  }

  ghost predicate LowRateClean(c: Campaign, th: Thresholds)
    requires Paired(c)
  {
    forall i :: 0 <= i < 5 ==> ServesCleanly(c.low[i], th)
  }

  /** No block shows stress at the high rate together with a p99 past the ratio. */
  ghost predicate HighRateUnstressed(c: Campaign, th: Thresholds)
    requires Paired(c)
  {
    forall i :: 0 <= i < 5 ==>
      !(ShowsStress(c.high[i], th) && c.high[i].p99.Some? && c.low[i].p99.Some?
        && c.high[i].p99.value > th.ratioMin * c.low[i].p99.value)
  }

  lemma RatesRead(c: Campaign, th: Thresholds)
    requires Paired(c)
    ensures LowRateClean(c, th) <==> forall i :: 0 <= i < 5 ==> Clean41(c.low[i], th)
    ensures HighRateUnstressed(c, th) <==> forall i :: 0 <= i < 5 ==> !BlockStressed(c.low[i], c.high[i], th)
  {
    hide ShowsStress, ServesCleanly, Clean41, Stressed42;
    forall i | 0 <= i < 5
      ensures Clean41(c.low[i], th) <==> ServesCleanly(c.low[i], th)
      ensures Stressed42(c.high[i], th) <==> ShowsStress(c.high[i], th)
    {
      CellReads(c.low[i], th);
      CellReads(c.high[i], th);
    }
  }

  // ----- the decision -----

  ghost predicate AllBlocks(c: Campaign, th: Thresholds)
    requires Paired(c)
  {
    forall i :: 0 <= i < 5 ==>
      Clean41(c.low[i], th) && BlockStressed(c.low[i], c.high[i], th) && BlockAgrees(c.low[i], c.high[i])
  }

  /** The differences of a block, and its p99 ratio. */
  ghost predicate EffectsMeasured(e: Effects, low: ScaleCell, high: ScaleCell) {
    && low.p99.Some? && high.p99.Some? && low.p99.value > 0.0 && e.ratio * low.p99.value == high.p99.value
    && e.success == high.success - low.success && e.drain == high.drain - low.drain
    && e.marginal == high.useful - low.useful
  }

  lemma EffectsRead(e: Effects, low: ScaleCell, high: ScaleCell)
    ensures BlockEffects(low, high) == Some(e) <==> EffectsMeasured(e, low, high)
  {
    if Quotient(high.p99, low.p99).Some? { RatioCompare(high.p99.value, low.p99.value, e.ratio); }
  }

  ghost predicate EffectsListed(c: Campaign, effects: seq<Effects>)
    requires Paired(c)
  {
    |effects| == 5 && forall i :: 0 <= i < 5 ==> EffectsMeasured(effects[i], c.low[i], c.high[i])
  }

  lemma ListedRead(c: Campaign, effects: seq<Effects>)
    requires Paired(c) && |effects| == 5
    ensures EffectsListed(c, effects) <==>
            forall i :: 0 <= i < 5 ==> BlockEffects(c.low[i], c.high[i]) == Some(effects[i])
  {
    hide EffectsMeasured, BlockEffects;
    forall i | 0 <= i < 5
      ensures BlockEffects(c.low[i], c.high[i]) == Some(effects[i]) <==>
              EffectsMeasured(effects[i], c.low[i], c.high[i])
    {
      EffectsRead(effects[i], c.low[i], c.high[i]);
    }
  }

  /** Whether the relative change of a figure is within a limit; None where taking it raises. */
  method DriftWithin(after: NonNegative, before: NonNegative, limit: real) returns (within: Option<bool>)
    ensures within.Some? <==> before > 0.0
    ensures within.Some? ==> within.value == Near(after, before, limit)
  {
    if before == 0.0 { return None; }
    var change := if after < before then before - after else after - before;
    RatioCompare(change, before, limit);
    return Some(change / before <= limit);
  }

  /** Whether the larger of two p99s over the smaller is within a limit; None where taking it raises. */
  method SpreadWithin(a: Option<NonNegative>, b: Option<NonNegative>, limit: real) returns (within: Option<bool>)
    ensures within.Some? <==> Positive(a) && Positive(b)
    ensures within.Some? ==> within.value == Together(a, b, limit)
  {
    if a.None? || b.None? { return None; }
    var larger := if a.value < b.value then b.value else a.value;
    var smaller := if a.value < b.value then a.value else b.value;
    if smaller == 0.0 { return None; }
    RatioCompare(larger, smaller, limit);
    TogetherBySize(larger, smaller, limit);
    return Some(larger / smaller <= limit);
  }

  lemma TogetherBySize(larger: real, smaller: real, limit: real)
    requires larger >= smaller > 0.0
    ensures larger <= limit * smaller ==> smaller <= limit * larger
  {
    assert limit < 1.0 ==> (1.0 - limit) * smaller > 0.0;
    assert limit >= 1.0 ==> (limit - 1.0) * larger >= 0.0;
  }

  datatype Blocks = Blocks(effects: seq<Effects>, clean: bool, stressed: bool, anyStressed: bool, paired: bool)

  /** The five block rows; None where a ratio raises. */
  method BuildBlocks(c: Campaign, th: Thresholds) returns (r: Option<Blocks>)
    requires Paired(c)
    ensures r.Some? <==> Measured(c)
    ensures r.Some? ==>
      && EffectsListed(c, r.value.effects)
      && (r.value.clean <==> forall i :: 0 <= i < 5 ==> Clean41(c.low[i], th))
      && (r.value.stressed <==> forall i :: 0 <= i < 5 ==> BlockStressed(c.low[i], c.high[i], th))
      && (r.value.anyStressed <==> exists i :: 0 <= i < 5 && BlockStressed(c.low[i], c.high[i], th))
      && (r.value.paired <==> forall i :: 0 <= i < 5 ==> BlockAgrees(c.low[i], c.high[i]))
  {
    hide Clean41, Stressed42, Exceeds, EffectsListed, BlockStressed, BlockAgrees, BlockEffects, Quotient;
    MeasuredQuotients(c);
    var b := Blocks([], true, true, false, true);
    for i := 0 to 5
      invariant forall k :: 0 <= k < i ==> Quotient(c.high[k].p99, c.low[k].p99).Some?
      invariant |b.effects| == i && forall k :: 0 <= k < i ==> BlockEffects(c.low[k], c.high[k]) == Some(b.effects[k])
      invariant b.clean <==> forall k :: 0 <= k < i ==> Clean41(c.low[k], th)
      invariant b.stressed <==> forall k :: 0 <= k < i ==> BlockStressed(c.low[k], c.high[k], th)
      invariant b.anyStressed <==> exists k :: 0 <= k < i && BlockStressed(c.low[k], c.high[k], th)
      invariant b.paired <==> forall k :: 0 <= k < i ==> BlockAgrees(c.low[k], c.high[k])
    {
      var low, high := c.low[i], c.high[i];
      var ratio := Quotient(high.p99, low.p99);
      if ratio.None? { return None; }
      BlockFigures(low, high, th);
      var e := Effects(high.success - low.success, high.drain - low.drain, ratio.value, high.useful - low.useful);
      var stressed := Stressed42(high, th) && ratio.value > th.ratioMin;
      var agrees := e.success < 0.0 && e.drain > 0.0 && e.ratio > 1.0 && e.marginal < 1.0;
      b := Blocks(b.effects + [e], b.clean && Clean41(low, th), b.stressed && stressed, b.anyStressed || stressed,
                  b.paired && agrees);
    }
    ListedRead(c, b.effects);
    return Some(b);
  }

  /** The figures of one block with a ratio, as the loop computes them. */
  lemma BlockFigures(low: ScaleCell, high: ScaleCell, th: Thresholds)
    requires Quotient(high.p99, low.p99).Some?
    ensures var ratio := Quotient(high.p99, low.p99).value;
      && (BlockStressed(low, high, th) <==> Stressed42(high, th) && ratio > th.ratioMin)
      && (BlockAgrees(low, high) <==>
            high.success - low.success < 0.0 && high.drain - low.drain > 0.0 && ratio > 1.0
            && high.useful - low.useful < 1.0)
      && BlockEffects(low, high)
         == Some(Effects(high.success - low.success, high.drain - low.drain, ratio, high.useful - low.useful))
  {
    QuotientExceeds(high.p99, low.p99, th.ratioMin);
    QuotientExceeds(high.p99, low.p99, 1.0);
  }

  lemma MeasuredQuotients(c: Campaign)
    requires Paired(c)
    ensures Measured(c) <==> forall i :: 0 <= i < 5 ==> Quotient(c.high[i].p99, c.low[i].p99).Some?
  {
  }

  /** Blocks that are all stressed past a ratio of at least 1.25, and all agree, pass every interval. */
  lemma BlocksPass(c: Campaign, th: Thresholds, effects: seq<Effects>, draws: seq<seq<nat>>)
    requires Paired(c) && EffectsListed(c, effects) && Draws(draws, 5) && th.ratioMin >= 1.25
    requires forall i :: 0 <= i < 5 ==> BlockStressed(c.low[i], c.high[i], th) && BlockAgrees(c.low[i], c.high[i])
    ensures IntervalsPass(AllIntervals(effects, draws, Nearest))
  {
    ListedRead(c, effects);
    hide Draws, IntervalsPass, AllIntervals, Exceeds, Stressed42, EffectsListed;
    forall i | 0 <= i < 5 ensures Unanimous(effects[i]) {
      assert BlockEffects(c.low[i], c.high[i]) == Some(effects[i]);
      assert BlockStressed(c.low[i], c.high[i], th) && BlockAgrees(c.low[i], c.high[i]);
      QuotientExceeds(c.high[i].p99, c.low[i].p99, th.ratioMin);
    }
    UnanimousPasses(effects, draws, Nearest);
  }

  ghost predicate Confirms(c: Campaign, th: Thresholds)
    requires Paired(c) && Measured(c)
  {
    AllBlocks(c, th) && Variability(c).Passes? && ScaleSteady(c, th) && R1Gate(c, th).Passes?
  }

  /** The horizontal decision returns a status exactly when it is decidable.  With a stress ratio of at least
      1.25 the bootstrap never decides, and the four statuses split all decidable campaigns. */
  method Decide(c: Campaign, th: Thresholds, draws: seq<seq<nat>>) returns (status: Option<Status>)
    requires Paired(c) && Draws(draws, 5)
    ensures status.Some? <==> Decidable(c, th)
    ensures status.Some? && th.ratioMin >= 1.25 ==> (status.value.ConfirmedAtRung? <==> Confirms(c, th))
    ensures status.Some? ==> forall effects :: EffectsListed(c, effects) ==>
      (status.value.ConfirmedAtRung? <==>
        Confirms(c, th) && AllClear(AllIntervals(effects, draws, Nearest)))
    ensures status.Some? ==>
      (status.value.AtOrBelowLowRate? <==> !LowRateClean(c, th))
    ensures status.Some? ==>
      (status.value.AboveHighRate? <==>
        LowRateClean(c, th) && HighRateUnstressed(c, th))
  {
    hide Draws, AllIntervals, Clean41, BlockStressed, BlockAgrees, Near, Together, Exceeds,
         VariationGate, Measured, EffectsListed, BlockEffects, Stressed42, LowRateClean, HighRateUnstressed;
    var blocks := BuildBlocks(c, th);
    if blocks.None? { return None; }
    var b := blocks.value;
    RatesRead(c, th);
    EffectsCount(c, b.effects);
    forall effects | EffectsListed(c, effects) ensures effects == b.effects { OneListing(c, effects, b.effects); }
    var intervals := BootstrapMedianEffects(b.effects, draws, Nearest);
    if th.ratioMin >= 1.25 && b.stressed && b.paired { BlocksPass(c, th, b.effects, draws); }
    var variability := Variability(c);
    if variability.Raises? { return None; }
    var useful := DriftWithin(c.post35.aggregate, c.pre35.aggregate, th.usefulDeltaMax);
    var p99 := SpreadWithin(c.pre35.p99, c.post35.p99, th.p99RatioMax);
    if useful.None? || p99.None? { return None; }
    var scale := c.pre35.errors == 0 && c.post35.errors == 0 && c.pre35.drain <= 0.01 && c.post35.drain <= 0.01
      && useful.value && p99.value;
    var drift := DriftWithin(c.r1Post41.useful, c.r1Pre41.useful, 0.02);
    var spread := SpreadWithin(c.r1Post41.p99, c.r1Pre41.p99, 1.20);
    if drift.None? || spread.None? { return None; }
    var r1 := RunR1(c, th, drift.value, spread.value);
    if r1.Raises? { return None; }
    if b.clean && b.stressed && b.paired && IntervalsPass(intervals) && variability.Passes? && scale && r1.Passes? {
      status := Some(ConfirmedAtRung);
    } else if !b.clean {
      status := Some(AtOrBelowLowRate);
    } else if !b.anyStressed {
      status := Some(AboveHighRate);
    } else {
      status := Some(Inconclusive);
    }
    assert b.stressed ==> BlockStressed(c.low[0], c.high[0], th);
  }

  lemma EffectsCount(c: Campaign, effects: seq<Effects>)
    requires Paired(c) && EffectsListed(c, effects)
    ensures |effects| == 5
  {
  }

  lemma OneListing(c: Campaign, a: seq<Effects>, b: seq<Effects>)
    requires Paired(c) && EffectsListed(c, a) && EffectsListed(c, b)
    ensures a == b
  {
    ListedRead(c, a);
    ListedRead(c, b);
    hide BlockEffects, EffectsMeasured;
    forall i | 0 <= i < 5 ensures a[i] == b[i] { assert BlockEffects(c.low[i], c.high[i]) == Some(a[i]); }
  }

  /** The sentinel conjunction, test by test. */
  method RunR1(c: Campaign, th: Thresholds, drift: bool, spread: bool) returns (g: Gate)
    requires Positive(c.r1Pre41.p99) && Positive(c.r1Post41.p99)
    requires drift == Near(c.r1Post41.useful, c.r1Pre41.useful, 0.02)
    requires spread == Together(c.r1Post41.p99, c.r1Pre41.p99, 1.20)
    ensures g == R1Gate(c, th)
  {
    if !Clean41(c.r1Pre41, th) || !Clean41(c.r1Post41, th) { return Fails; }
    if !Stressed42(c.r1Pre42, th) || !Stressed42(c.r1Post42, th) { return Fails; }
    var pre := Quotient(c.r1Pre42.p99, c.r1Pre41.p99);
    if pre.None? { return Raises; }
    QuotientExceeds(c.r1Pre42.p99, c.r1Pre41.p99, 1.25);
    if pre.value <= 1.25 { return Fails; }
    var post := Quotient(c.r1Post42.p99, c.r1Post41.p99);
    if post.None? { return Raises; }
    QuotientExceeds(c.r1Post42.p99, c.r1Post41.p99, 1.25);
    if post.value <= 1.25 { return Fails; }
    return Test(drift && spread);
  }
}
