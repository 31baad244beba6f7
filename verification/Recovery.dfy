/** The same-pod recovery verdict: when the target counts as recovered after an overload. */
module Recovery {
  import opened Common

  /** One sparse probe's driver result. */
  datatype Probe = Probe(offset: nat, offered: nat, initiated: nat, okTotal: nat, rtts: seq<nat>)

  /** The steady stream after the probes. */
  datatype Post = Post(offered: nat, okTotal: nat, rtts: seq<nat>)

  datatype Color = Green | Amber | Red

  const MIN_LIMIT_US := 50_000

  function LimitUs(preP99: nat): nat { Max(2 * preP99, MIN_LIMIT_US) }

  /** The probe's only request was answered OK inside the recovery budget. */
  predicate Good(p: Probe, limit: nat) {
    p.offered == 1 && p.initiated == 1 && p.okTotal == 1 && |p.rtts| == 1 && p.rtts[0] <= limit
  }

  /** Every response of a non-empty post stream was OK and inside the budget. */
  predicate PostGood(post: Post, limit: nat) {
    && post.okTotal == post.offered == |post.rtts| && |post.rtts| > 0
    && forall i :: 0 <= i < |post.rtts| ==> post.rtts[i] <= limit
  }

  // ----- the rule -----

  predicate AllGoodFrom(good: seq<bool>, k: nat) {
    forall i :: k <= i < |good| ==> good[i]
  }

  /** Where the maximal run of good probes at the end starts; past the end when the last probe is bad. */
  function SuffixStart(good: seq<bool>): (k: nat)
    ensures k <= |good| && AllGoodFrom(good, k)
    ensures forall j: nat :: j < k ==> !AllGoodFrom(good, j)
  {
    if |good| == 0 then 0 else
    var n := |good| - 1;
    if !good[n] then n + 1 else
      var k := SuffixStart(good[..n]);
      assert good == good[..n] + [true];
      SuffixExtends(good[..n], k);
      k
  }

  lemma SuffixExtends(front: seq<bool>, k: nat)
    requires AllGoodFrom(front, k) && forall j: nat :: j < k ==> !AllGoodFrom(front, j)
    ensures AllGoodFrom(front + [true], k) && forall j: nat :: j < k ==> !AllGoodFrom(front + [true], j)
  {
    forall j: nat | j < k ensures !AllGoodFrom(front + [true], j) {
      assert !AllGoodFrom(front, j);
      var i :| j <= i < |front| && !front[i];
      assert !(front + [true])[i];
    }
  }

  /** Recovery starts the final run of good probes, if that run has three probes, or any probe and a good
      post stream to confirm it. */
  function RecoveryIndex(good: seq<bool>, postGood: bool): Option<nat> {
    var k := SuffixStart(good);
    if k + 3 <= |good| || (k < |good| && postGood) then Some(k) else None
  }

  // ----- the scan -----

  method ScanGood(good: seq<bool>, from: nat, to: nat) returns (all: bool)
    requires from <= to <= |good|
    ensures all <==> forall i :: from <= i < to ==> good[i]
  {
    for i := from to to
      invariant forall j :: from <= j < i ==> good[j]
    {
      if !good[i] { return false; }
    }
    return true;
  }

  method PostContinuation(post: Post, limit: nat) returns (good: bool)
    ensures good <==> PostGood(post, limit)
  {
    var largest := limit + 1;
    if |post.rtts| > 0 { largest := post.rtts[0]; }
    for i := 0 to |post.rtts|
      invariant |post.rtts| > 0 ==> largest in post.rtts && forall k :: 0 <= k < i ==> post.rtts[k] <= largest
      invariant |post.rtts| == 0 ==> largest == limit + 1
    {
      if post.rtts[i] > largest { largest := post.rtts[i]; }
    }
    good := post.okTotal == post.offered && |post.rtts| == post.offered && largest <= limit;
  }

  /** The candidate scan finds the index the rule names. */
  method FirstStable(good: seq<bool>, postGood: bool) returns (r: Option<nat>)
    ensures r == RecoveryIndex(good, postGood)
  {
    var n := |good|;
    for index := 0 to n
      invariant forall j: nat :: j < index ==> RecoveryIndex(good, postGood) != Some(j)
    {
      NotStarted(good, index);
      if good[index] {
        var laterGood := ScanGood(good, index + 1, n);
        if laterGood {
          assert SuffixStart(good) <= index;
          var next := Min(2, n - (index + 1));
          var nextGood := ScanGood(good, index + 1, index + 1 + next);
          var needed := 2 - next;
          if nextGood && !(needed > 0 && !postGood) {
            return Some(index);
          }
        }
      }
    }
    return None;
  }

  lemma NotStarted(good: seq<bool>, index: nat)
    requires index < |good|
    ensures SuffixStart(good) <= index <==> AllGoodFrom(good, index)
  {
    if SuffixStart(good) <= index {
      assert AllGoodFrom(good, SuffixStart(good));
    }
  }

  // ----- what the rule means -----

  ghost predicate AtLeastAsGood(a: seq<bool>, b: seq<bool>) {
    |a| == |b| && forall i :: 0 <= i < |a| ==> a[i] ==> b[i]
  }

  /** Turning bad probes good, or the post stream good, never makes recovery later. */
  lemma BetterNeverLater(a: seq<bool>, b: seq<bool>, postA: bool, postB: bool)
    requires AtLeastAsGood(a, b) && (postA ==> postB) && RecoveryIndex(a, postA).Some?
    ensures RecoveryIndex(b, postB).Some? && RecoveryIndex(b, postB).value <= RecoveryIndex(a, postA).value
  {
    var k := SuffixStart(a);
    assert AllGoodFrom(a, k);
    assert AllGoodFrom(b, k) by {
      forall i | k <= i < |b| ensures b[i] { assert a[i]; }
    }
    NotStarted(b, k);
  }

  /** Recovery is anchored by a good probe after which nothing sparse is bad, and the probe before it, if
      any, is bad; with a clean post stream it exists exactly when the last probe is good. */
  lemma RecoveryAnchored(good: seq<bool>, postGood: bool)
    ensures var r := RecoveryIndex(good, postGood);
      && (r.Some? ==> r.value < |good| && AllGoodFrom(good, r.value) && (r.value > 0 ==> !good[r.value - 1]))
      && (postGood ==> (r.Some? <==> |good| > 0 && good[|good| - 1]))
      && (!postGood ==> (r.Some? <==> |good| >= 3 && AllGoodFrom(good, |good| - 3)))
  {
    var n, k := |good|, SuffixStart(good);
    if 0 < k < n {
      assert !AllGoodFrom(good, k - 1);
    }
    if n > 0 { NotStarted(good, n - 1); }
    if n >= 3 { NotStarted(good, n - 3); }
  }

  // ----- the frozen schedule -----

  const OFFSETS: seq<nat> := [0, 1, 2, 3, 5, 8, 13, 21, 34, 55, 89]

  function ColorOf(recovery: Option<nat>): Color {
    if recovery.None? || recovery.value > 55 then Red
    else if recovery.value <= 34 then Green
    else Amber
  }

  ghost predicate Scheduled(probes: seq<Probe>) {
    |probes| == |OFFSETS| && forall i :: 0 <= i < |probes| ==> probes[i].offset == OFFSETS[i]
  }

  function GoodFlags(probes: seq<Probe>, limit: nat): (good: seq<bool>)
    ensures |good| == |probes| && forall i :: 0 <= i < |probes| ==> good[i] == Good(probes[i], limit)
  {
    seq(|probes|, i requires 0 <= i < |probes| => Good(probes[i], limit))
  }

  lemma OffsetsAscend(k: nat)
    requires k < |OFFSETS|
    ensures OFFSETS[k] <= 34 <==> k <= 8
    ensures OFFSETS[k] <= 55 <==> k <= 9
    ensures OFFSETS[k] == 89 <==> k == 10
  {
    assert k == 0 || k == 1 || k == 2 || k == 3 || k == 4 || k == 5 || k == 6 || k == 7 || k == 8 || k == 9 || k == 10;
  }

  // ----- the steady phases -----

  /** A steady phase's driver result, from its counts; percentiles are None without a population. */
  datatype PhaseResult = PhaseResult(
    seconds: nat, offered: nat, ok: nat, drained: nat, p50: Option<nat>, p99: Option<nat>)

  datatype OverloadResult = OverloadResult(offered: nat, drained: nat, exhausted: nat)

  datatype Limits = Limits(
    successMin: real, drainMax: real, usefulDeltaMax: real, p50RatioMax: real, p99RatioMax: real,
    queueRatioMin: real, overloadDrainMin: real)

  /** The scheduled slots and seconds of a frozen phase are positive. */
  predicate Planned(pre: PhaseResult, overload: OverloadResult, after: PhaseResult) {
    pre.seconds > 0 && pre.offered > 0 && overload.offered > 0 && after.seconds > 0 && after.offered > 0
  }

  /** At least this share of the offered slots was answered OK, and at most that share drained. */
  predicate Steady(p: PhaseResult, limits: Limits) {
    p.ok as real >= limits.successMin * p.offered as real && p.drained as real <= limits.drainMax * p.offered as real
  }

  /** Useful throughput within a relative distance, compared across the two durations. */
  predicate ThroughputNear(pre: PhaseResult, after: PhaseResult, delta: real) {
    var a, b := after.ok as real * pre.seconds as real, pre.ok as real * after.seconds as real;
    -(delta * b) <= a - b <= delta * b
  }

  predicate AtMostTimes(after: Option<nat>, pre: Option<nat>, factor: real) {
    after.Some? && pre.Some? && after.value as real <= factor * pre.value as real
  }

  /** The other eight requirements of the gate, without quotients. */
  predicate PhasesHold(pre: PhaseResult, overload: OverloadResult, after: PhaseResult, queueRatio: real,
                       limits: Limits)
  {
    && Steady(pre, limits) && Steady(after, limits) && ThroughputNear(pre, after, limits.usefulDeltaMax)
    && AtMostTimes(after.p50, pre.p50, limits.p50RatioMax) && AtMostTimes(after.p99, pre.p99, limits.p99RatioMax)
    && queueRatio > limits.queueRatioMin
    && (overload.drained as real > limits.overloadDrainMin * overload.offered as real || overload.exhausted > 0)
  }

  /** Both phases have a latency population, and no ratio is taken of zero. */
  predicate Evaluable(pre: PhaseResult, after: PhaseResult) {
    && pre.p50.Some? && pre.p99.Some? && after.p50.Some? && after.p99.Some?
    && pre.ok > 0 && pre.p50.value > 0 && pre.p99.value > 0
  }

  lemma AroundOne(a: real, b: real, delta: real)
    requires b > 0.0
    ensures -delta <= a / b - 1.0 <= delta <==> -(delta * b) <= a - b <= delta * b
  {
    var q := a / b;
    assert q * b == a;
    var over, under := q - 1.0 - delta, q - 1.0 + delta;
    assert over * b == a - b - delta * b && under * b == a - b + delta * b;
    Sign(over, b);
    Sign(under, b);
  }

  lemma Sign(x: real, b: real)
    requires b > 0.0
    ensures x * b <= 0.0 <==> x <= 0.0
    ensures x * b >= 0.0 <==> x >= 0.0
  {
    if x > 0.0 { assert x * b > 0.0; }
    if x < 0.0 { assert (-x) * b > 0.0; }
  }

  lemma RateRatio(m: nat, s: nat, n: nat, r: nat, delta: real)
    requires s > 0 && r > 0 && n > 0
    ensures n as real / r as real > 0.0
    ensures -delta <= (m as real / s as real) / (n as real / r as real) - 1.0 <= delta <==>
            -(delta * (n as real * s as real)) <= m as real * r as real - n as real * s as real
              <= delta * (n as real * s as real)
  {
    QuotientOfQuotients(m as real, s as real, n as real, r as real);
    AroundOne(m as real * r as real, n as real * s as real, delta);
  }

  lemma QuotientOfQuotients(m: real, s: real, n: real, r: real)
    requires s > 0.0 && n > 0.0 && r > 0.0
    ensures n / r > 0.0 && n * s > 0.0 && (m / s) / (n / r) == (m * r) / (n * s)
  {
    var x, y := m / s, n / r;
    assert x * s == m && y * r == n;
    assert x * (n * s) == (x * s) * n == m * n;
    assert y * (m * r) == (y * r) * m == n * m;
    var q := x / y;
    assert q * y == x;
    assert q * (n * s) == q * ((y * r) * s) == (q * y) * (r * s) == x * (r * s) == (x * s) * r == m * r;
  }

  method ThroughputWithin(pre: PhaseResult, after: PhaseResult, delta: real) returns (within: bool)
    requires pre.seconds > 0 && after.seconds > 0 && pre.ok > 0
    ensures within == ThroughputNear(pre, after, delta)
  {
    RateRatio(after.ok, after.seconds, pre.ok, pre.seconds, delta);
    var preUseful, afterUseful := pre.ok as real / pre.seconds as real, after.ok as real / after.seconds as real;
    var ratio := afterUseful / preUseful;
    return (if ratio < 1.0 then 1.0 - ratio else ratio - 1.0) <= delta;
  }

  method RatioWithin(after: nat, pre: nat, factor: real) returns (within: bool)
    requires pre > 0
    ensures within == AtMostTimes(Some(after), Some(pre), factor)
  {
    RatioCompare(after as real, pre as real, factor);
    return after as real / pre as real <= factor;
  }

  method Overloaded(o: OverloadResult, limits: Limits) returns (overloaded: bool)
    requires o.offered > 0
    ensures overloaded <==> o.drained as real > limits.overloadDrainMin * o.offered as real || o.exhausted > 0
  {
    RatioCompare(o.drained as real, o.offered as real, limits.overloadDrainMin);
    return o.drained as real / o.offered as real > limits.overloadDrainMin || o.exhausted > 0;
  }

  /** The eight comparisons as the verdict computes them; None where a ratio raises. */
  method ComparePhases(pre: PhaseResult, overload: OverloadResult, after: PhaseResult, queueRatio: real, limits: Limits)
    returns (r: Option<bool>)
    requires Planned(pre, overload, after)
    ensures r.Some? <==> Evaluable(pre, after)
    ensures r.Some? ==> r.value == PhasesHold(pre, overload, after, queueRatio, limits)
  {
    hide Steady, ThroughputNear, AtMostTimes;
    if pre.p50.None? || pre.p99.None? || after.p50.None? || after.p99.None? { return None; }
    if pre.ok == 0 || pre.p50.value == 0 || pre.p99.value == 0 { return None; }
    var preSteady := SteadyPhase(pre, limits);
    var afterSteady := SteadyPhase(after, limits);
    var useful := ThroughputWithin(pre, after, limits.usefulDeltaMax);
    var p50 := RatioWithin(after.p50.value, pre.p50.value, limits.p50RatioMax);
    var p99 := RatioWithin(after.p99.value, pre.p99.value, limits.p99RatioMax);
    var overloaded := Overloaded(overload, limits);
    assert after.p50 == Some(after.p50.value) && pre.p50 == Some(pre.p50.value);
    assert after.p99 == Some(after.p99.value) && pre.p99 == Some(pre.p99.value);
    return Some(preSteady && afterSteady && useful && p50 && p99 && queueRatio > limits.queueRatioMin && overloaded);
  }

  method SteadyPhase(p: PhaseResult, limits: Limits) returns (steady: bool)
    requires p.offered > 0
    ensures steady == Steady(p, limits)
  {
    RatioCompare(p.ok as real, p.offered as real, limits.successMin);
    RatioCompare(p.drained as real, p.offered as real, limits.drainMax);
    return p.ok as real / p.offered as real >= limits.successMin
        && p.drained as real / p.offered as real <= limits.drainMax;
  }

  /** A latency exists before and after, and after it is at most that many times as large. */
  ghost predicate GrewAtMost(pre: Option<nat>, after: Option<nat>, times: real) {
    pre.Some? && after.Some? && pre.value > 0 && after.value as real / pre.value as real <= times
  }

  /** The shares of the offered slots answered OK and drained. */
  ghost predicate SharesHold(p: PhaseResult, limits: Limits)
    requires p.offered > 0
  {
    p.ok as real / p.offered as real >= limits.successMin && p.drained as real / p.offered as real <= limits.drainMax
  }

  /** Useful throughput after over before, within a distance of one. */
  ghost predicate ThroughputKept(pre: PhaseResult, after: PhaseResult, delta: real)
    requires pre.seconds > 0 && after.seconds > 0 && pre.ok > 0
  {
    var before := pre.ok as real / pre.seconds as real;
    before > 0.0 && -delta <= (after.ok as real / after.seconds as real) / before - 1.0 <= delta
  }

  lemma SharesRead(p: PhaseResult, limits: Limits)
    requires p.offered > 0
    ensures Steady(p, limits) <==> SharesHold(p, limits)
  {
    RatioCompare(p.ok as real, p.offered as real, limits.successMin);
    RatioCompare(p.drained as real, p.offered as real, limits.drainMax);
  }

  lemma ThroughputReads(pre: PhaseResult, after: PhaseResult, delta: real)
    requires pre.seconds > 0 && after.seconds > 0 && pre.ok > 0
    ensures ThroughputNear(pre, after, delta) <==> ThroughputKept(pre, after, delta)
  {
    RateRatio(after.ok, after.seconds, pre.ok, pre.seconds, delta);
  }

  lemma GrowthReads(pre: Option<nat>, after: Option<nat>, times: real)
    requires pre.Some? && pre.value > 0
    ensures AtMostTimes(after, pre, times) <==> GrewAtMost(pre, after, times)
  {
    if after.Some? { RatioCompare(after.value as real, pre.value as real, times); }
  }

  /** The comparisons as ratios: success and drain shares before and after, useful throughput, the two latencies,
      the queue, and a real overload. */
  lemma PhasesByRatio(pre: PhaseResult, overload: OverloadResult, after: PhaseResult, queueRatio: real, limits: Limits)
    requires Planned(pre, overload, after) && Evaluable(pre, after)
    ensures PhasesHold(pre, overload, after, queueRatio, limits) <==>
      && SharesHold(pre, limits) && SharesHold(after, limits) && ThroughputKept(pre, after, limits.usefulDeltaMax)
      && GrewAtMost(pre.p50, after.p50, limits.p50RatioMax) && GrewAtMost(pre.p99, after.p99, limits.p99RatioMax)
      && limits.queueRatioMin < queueRatio
      && (overload.exhausted >= 1 || overload.drained as real / overload.offered as real > limits.overloadDrainMin)
  {
    hide Steady, SharesHold, ThroughputNear, ThroughputKept, AtMostTimes, GrewAtMost;
    SharesRead(pre, limits);
    SharesRead(after, limits);
    ThroughputReads(pre, after, limits.usefulDeltaMax);
    GrowthReads(pre.p50, after.p50, limits.p50RatioMax);
    GrowthReads(pre.p99, after.p99, limits.p99RatioMax);
    RatioCompare(overload.drained as real, overload.offered as real, limits.overloadDrainMin);
  }

  // ----- the verdict -----

  datatype Status = GateGreen | GateAmber | GateRed

  datatype Verdict = Verdict(recoveryTime: Option<nat>, color: Color, status: Status)

  /** One request was offered, sent and answered OK, within 50 ms or within twice the p99 before the overload. */
  ghost predicate InBudget(p: Probe, preP99: nat) {
    && p.offered == 1 && p.initiated == 1 && p.okTotal == 1 && |p.rtts| == 1
    && (p.rtts[0] <= 50_000 || p.rtts[0] <= 2 * preP99)
  }

  /** Every offered request of a non-empty stream was answered OK, within the same budget. */
  ghost predicate StreamInBudget(post: Post, preP99: nat) {
    && post.offered > 0 && post.okTotal == post.offered && |post.rtts| == post.offered
    && forall i :: 0 <= i < |post.rtts| ==> post.rtts[i] <= 50_000 || post.rtts[i] <= 2 * preP99
  }

  /** The recovery time is the offset of the probe that starts the final run in budget; it takes that run and two
      more probes, or a clean stream after it. */
  ghost predicate RecoversAt(preP99: nat, probes: seq<Probe>, post: Post, k: int) {
    && 0 <= k < |probes| && (forall i :: k <= i < |probes| ==> InBudget(probes[i], preP99))
    && (k > 0 ==> !InBudget(probes[k - 1], preP99))
    && (k + 3 <= |probes| || StreamInBudget(post, preP99))
  }

  lemma RecoveryReads(preP99: nat, probes: seq<Probe>, post: Post)
    ensures var good, limit := GoodFlags(probes, LimitUs(preP99)), LimitUs(preP99);
      && (forall i :: 0 <= i < |probes| ==> (good[i] <==> InBudget(probes[i], preP99)))
      && (PostGood(post, limit) <==> StreamInBudget(post, preP99))
      && (forall k :: RecoveryIndex(good, PostGood(post, limit)) == Some(k) <==> RecoversAt(preP99, probes, post, k))
  {
    var good, postGood := GoodFlags(probes, LimitUs(preP99)), PostGood(post, LimitUs(preP99));
    BudgetReads(preP99, probes, post);
    hide GoodFlags, LimitUs, PostGood, StreamInBudget, InBudget;
    forall k ensures RecoveryIndex(good, postGood) == Some(k) <==> RecoversAt(preP99, probes, post, k) {
      RecoveryAnchored(good, postGood);
      if RecoversAt(preP99, probes, post, k) {
        assert AllGoodFrom(good, k);
        NotStarted(good, k);
        assert k > 0 ==> !good[k - 1] && !AllGoodFrom(good, k - 1);
        if k > 0 { NotStarted(good, k - 1); }
      }
    }
  }

  lemma BudgetReads(preP99: nat, probes: seq<Probe>, post: Post)
    ensures forall i :: 0 <= i < |probes| ==>
              (GoodFlags(probes, LimitUs(preP99))[i] <==> InBudget(probes[i], preP99))
    ensures PostGood(post, LimitUs(preP99)) <==> StreamInBudget(post, preP99)
  {
  }

  /** The recovery part on the frozen schedule.  Green needs exactly the probes at +34, +55 and +89 to be good
      and never the post stream; amber exactly a bad +34 probe made up for by good +55 and +89 probes and a
      clean post stream; and the post stream alone can record a recovery at +89, which is red. */
  method EvaluateRecovery(preP99: nat, probes: seq<Probe>, post: Post) returns (time: Option<nat>, color: Color)
    requires Scheduled(probes)
    ensures color == Green <==>
            InBudget(probes[8], preP99) && InBudget(probes[9], preP99) && InBudget(probes[10], preP99)
    ensures color == Amber <==>
            && !InBudget(probes[8], preP99) && InBudget(probes[9], preP99) && InBudget(probes[10], preP99)
            && StreamInBudget(post, preP99)
    ensures time == Some(89) <==>
            !InBudget(probes[9], preP99) && InBudget(probes[10], preP99) && StreamInBudget(post, preP99)
    ensures time.Some? ==> exists k :: RecoversAt(preP99, probes, post, k) && time.value == probes[k].offset
    ensures time.None? ==> forall k :: !RecoversAt(preP99, probes, post, k)
    ensures color == Red <==> time.None? || time.value > 55
  {
    var limit := LimitUs(preP99);
    var good: seq<bool> := [];
    for i := 0 to |probes|
      invariant good == GoodFlags(probes, limit)[..i]
    {
      good := good + [Good(probes[i], limit)];
    }
    assert good == GoodFlags(probes, limit);
    RecoveryReads(preP99, probes, post);
    hide Good, PostGood, LimitUs, SuffixStart, RecoveryIndex, GoodFlags, InBudget, StreamInBudget, RecoversAt;
    var postGood := PostContinuation(post, limit);
    var stable := FirstStable(good, postGood);
    FinalThree(good, postGood);
    time := None;
    if stable.Some? {
      time := Some(probes[stable.value].offset);
      OffsetsAscend(stable.value);
    }
    color := ColorOf(time);
  }

  /** The cycle's verdict; None exactly where evaluation raises. */
  method EvaluateCycle(pre: PhaseResult, overload: OverloadResult, after: PhaseResult, probes: seq<Probe>, post: Post,
                       queueRatio: real, limits: Limits) returns (v: Option<Verdict>)
    requires Planned(pre, overload, after) && Scheduled(probes)
    ensures v.Some? <==> Evaluable(pre, after)
    ensures v.Some? ==>
      var p99, hold := pre.p99.value, PhasesHold(pre, overload, after, queueRatio, limits);
      var lastTwo := InBudget(probes[9], p99) && InBudget(probes[10], p99);
      && (v.value.status == GateGreen <==> hold && lastTwo && InBudget(probes[8], p99))
      && (v.value.status == GateAmber <==>
            hold && lastTwo && !InBudget(probes[8], p99) && StreamInBudget(post, p99))
      && (v.value.color == Green <==> lastTwo && InBudget(probes[8], p99))
      && (v.value.recoveryTime.Some? ==>
            exists k :: RecoversAt(p99, probes, post, k) && v.value.recoveryTime.value == probes[k].offset)
      && (v.value.recoveryTime.None? ==> forall k :: !RecoversAt(p99, probes, post, k))
  {
    hide PhasesHold, InBudget, StreamInBudget, RecoversAt, Scheduled;
    var comparisons := ComparePhases(pre, overload, after, queueRatio, limits);
    if comparisons.None? { return None; }
    var time, color := EvaluateRecovery(pre.p99.value, probes, post);
    var checks := comparisons.value && time.Some?;
    TimeForColor(time);
    var status := if checks && color == Green then GateGreen
                  else if checks && color == Amber then GateAmber else GateRed;
    return Some(Verdict(time, color, status));
  }

  lemma TimeForColor(time: Option<nat>)
    ensures ColorOf(time) != Red ==> time.Some?
  {
  }

  /** On eleven probes, how the final three and the post stream place the recovery index. */
  lemma FinalThree(good: seq<bool>, postGood: bool)
    requires |good| == 11
    ensures var r := RecoveryIndex(good, postGood);
      && (r.Some? && r.value <= 8 <==> good[8] && good[9] && good[10])
      && (r == Some(9) <==> !good[8] && good[9] && good[10] && postGood)
      && (r == Some(10) <==> !good[9] && good[10] && postGood)
      && (r.Some? ==> r.value < 11)
  {
    hide SuffixStart;
    NotStarted(good, 8);
    NotStarted(good, 9);
    NotStarted(good, 10);
  }
}
