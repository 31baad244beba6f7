/** The telemetry coverage gates: what an accepted series of samples guarantees about its window. */
module Telemetry {
  import opened Common

  datatype Sample = Sample(time: real, value: real)

  datatype Series = Series(name: string, values: seq<Sample>)

  // ----- the window -----

  predicate Inside(s: Sample, start: real, end: real) { start <= s.time <= end }

  /** The samples of the window, in the order they were recorded. */
  function Selected(values: seq<Sample>, start: real, end: real): (selected: seq<Sample>)
    ensures forall i :: 0 <= i < |selected| ==> Inside(selected[i], start, end) && selected[i] in values
    ensures forall s :: s in values && Inside(s, start, end) ==> s in selected
  {
    if |values| == 0 then [] else
    var n := |values| - 1;
    Selected(values[..n], start, end) + (if Inside(values[n], start, end) then [values[n]] else [])
  }

  /** Recorded order is kept, and each recorded sample inside the window appears once. */
  lemma {:induction false} SelectedExactly(values: seq<Sample>, start: real, end: real) returns (at: seq<nat>)
    ensures |at| == |Selected(values, start, end)|
    ensures forall k :: 0 <= k < |at| ==> at[k] < |values| && Selected(values, start, end)[k] == values[at[k]]
    ensures forall k, l :: 0 <= k < l < |at| ==> at[k] < at[l]
    ensures forall i :: 0 <= i < |values| ==> (i in at <==> start <= values[i].time <= end)
  {
    at := [];
    if |values| > 0 {
      var n := |values| - 1;
      var front := values[..n];
      at := SelectedExactly(front, start, end);
      assert forall i :: 0 <= i < n ==> front[i] == values[i];
      assert Selected(values, start, end) ==
        Selected(front, start, end) + (if Inside(values[n], start, end) then [values[n]] else []);
      hide Selected;
      if Inside(values[n], start, end) { at := at + [n]; }
    }
  }

  /** The checks: an early first sample, a late last one, and no step forward longer than the gap. */
  ghost predicate Covered(selected: seq<Sample>, start: real, end: real, maxGap: real) {
    && |selected| > 0 && selected[0].time - start <= maxGap && end - selected[|selected| - 1].time <= maxGap
    && (forall i :: 0 <= i < |selected| - 1 ==> selected[i + 1].time - selected[i].time <= maxGap)
    && 0.0 <= maxGap
  }

  datatype Coverage = Coverage(samples: nat, first: real, last: real, maxGap: real, min: real, max: real, mean: real)

  ghost predicate Extremes(values: seq<Sample>, low: real, high: real) {
    && (forall i :: 0 <= i < |values| ==> low <= values[i].value <= high)
    && (exists i :: 0 <= i < |values| && values[i].value == low)
    && (exists i :: 0 <= i < |values| && values[i].value == high)
  }

  function Total(values: seq<Sample>): real {
    if |values| == 0 then 0.0 else Total(values[..|values| - 1]) + values[|values| - 1].value
  }

  method SeriesWindow(values: seq<Sample>, start: real, end: real) returns (selected: seq<Sample>)
    ensures selected == Selected(values, start, end)
  {
    selected := [];
    for i := 0 to |values|
      invariant selected == Selected(values[..i], start, end)
    {
      assert values[..i + 1][..i] == values[..i];
      if Inside(values[i], start, end) { selected := selected + [values[i]]; }
    }
    assert values[..|values|] == values;
  }

  ghost predicate LargestStep(s: seq<Sample>, n: nat, gap: real)
    requires n <= |s|
  {
    && gap >= 0.0 && (forall k :: 0 <= k < n - 1 ==> s[k + 1].time - s[k].time <= gap)
    && (gap == 0.0 || exists k :: 0 <= k < n - 1 && s[k + 1].time - s[k].time == gap)
  }

  /** The largest step forward, or zero. */
  method MaxGap(s: seq<Sample>) returns (gap: real)
    requires |s| > 0
    ensures LargestStep(s, |s|, gap)
  {
    gap := 0.0;
    for i := 1 to |s|
      invariant LargestStep(s, i, gap)
    {
      ghost var k := i - 1;
      if s[i].time - s[i - 1].time > gap {
        gap := s[i].time - s[i - 1].time;
        assert s[k + 1].time - s[k].time == gap;
      }
    }
  }

  method Summarize(s: seq<Sample>) returns (low: real, high: real, sum: real)
    requires |s| > 0
    ensures Extremes(s, low, high) && sum == Total(s)
  {
    low, high, sum := s[0].value, s[0].value, s[0].value;
    hide Extremes, Total;
    OneSample(s[0]);
    assert s[..1] == [s[0]];
    for i := 1 to |s|
      invariant Extremes(s[..i], low, high) && sum == Total(s[..i])
    {
      ExtremesGrow(s[..i], s[i], low, high);
      TotalGrow(s[..i], s[i]);
      assert s[..i + 1] == s[..i] + [s[i]];
      if s[i].value < low { low := s[i].value; }
      if s[i].value > high { high := s[i].value; }
      sum := sum + s[i].value;
    }
    assert s[..|s|] == s;
  }

  lemma OneSample(s: Sample)
    ensures Extremes([s], s.value, s.value) && Total([s]) == s.value
  {
    assert [s][0] == s && [s][..0] == [];
  }

  lemma TotalGrow(values: seq<Sample>, s: Sample)
    ensures Total(values + [s]) == Total(values) + s.value
  {
    assert (values + [s])[..|values|] == values;
  }

  method Measure(values: seq<Sample>, start: real, end: real, maxGap: real) returns (r: Option<Coverage>)
    ensures r.Some? <==> Covered(Selected(values, start, end), start, end, maxGap)
    ensures r.Some? ==> var s := Selected(values, start, end);
      && r.value.samples == |s| > 0 && r.value.first == s[0].time && r.value.last == s[|s| - 1].time
      && Extremes(s, r.value.min, r.value.max) && r.value.mean * |s| as real == Total(s)
      && LargestStep(s, |s|, r.value.maxGap)
  {
    hide Selected, Extremes, Total, LargestStep, Covered;
    var selected := SeriesWindow(values, start, end);
    NothingCovers(start, end, maxGap);
    if |selected| == 0 { return None; }
    var gap := MaxGap(selected);
    LargestDecides(selected, start, end, gap, maxGap);
    if selected[0].time - start > maxGap { return None; }
    if end - selected[|selected| - 1].time > maxGap { return None; }
    if gap > maxGap { return None; }
    var low, high, sum := Summarize(selected);
    MeanTimes(sum, |selected|);
    return Some(Coverage(|selected|, selected[0].time, selected[|selected| - 1].time, gap, low, high,
                         sum / |selected| as real));
  }

  lemma MeanTimes(sum: real, n: nat)
    requires n > 0
    ensures (sum / n as real) * n as real == sum
  {
  }

  lemma NothingCovers(start: real, end: real, maxGap: real)
    ensures !Covered([], start, end, maxGap)
  {
  }

  lemma LargestDecides(s: seq<Sample>, start: real, end: real, gap: real, maxGap: real)
    requires |s| > 0 && LargestStep(s, |s|, gap)
    ensures Covered(s, start, end, maxGap) <==>
            s[0].time - start <= maxGap && end - s[|s| - 1].time <= maxGap && gap <= maxGap
  {
  }

  lemma ExtremesGrow(values: seq<Sample>, s: Sample, low: real, high: real)
    requires Extremes(values, low, high)
    ensures Extremes(values + [s], if s.value < low then s.value else low, if s.value > high then s.value else high)
  {
    var grown := values + [s];
    var i :| 0 <= i < |values| && values[i].value == low;
    var j :| 0 <= j < |values| && values[j].value == high;
    assert grown[i].value == low && grown[j].value == high && grown[|values|] == s;
  }

  // ----- what coverage guarantees -----

  predicate Near(s: Sample, t: real, distance: real) {
    t - distance <= s.time <= t + distance
  }

  /** A step across `t` exists between a sample at or before it and a later-listed one after it. */
  lemma {:induction false} StepAcross(samples: seq<Sample>, t: real, n: nat)
    requires 0 < n < |samples| && samples[0].time <= t < samples[n].time
    ensures exists i :: 0 <= i < n && samples[i].time <= t < samples[i + 1].time
  {
    if samples[n - 1].time > t {
      StepAcross(samples, t, n - 1);
    } else {
      var i := n - 1;
      assert samples[i].time <= t < samples[i + 1].time;
    }
  }

  /** Every instant of the window has a sample within the gap, whether or not the samples are in order. */
  lemma CoverageReachesEverywhere(selected: seq<Sample>, start: real, end: real, maxGap: real, t: real)
    requires Covered(selected, start, end, maxGap) && start <= t <= end
    ensures exists i :: 0 <= i < |selected| && Near(selected[i], t, maxGap)
  {
    var last := |selected| - 1;
    if t <= selected[0].time {
      assert Near(selected[0], t, maxGap);
    } else if t >= selected[last].time {
      assert Near(selected[last], t, maxGap);
    } else {
      StepAcross(selected, t, last);
      var i :| 0 <= i < last && selected[i].time <= t < selected[i + 1].time;
      assert Near(selected[i], t, maxGap);
    }
  }

  ghost predicate InTimeOrder(samples: seq<Sample>) {
    forall i, j :: 0 <= i < j < |samples| ==> samples[i].time <= samples[j].time
  }

  ghost predicate Hit(samples: seq<Sample>, t: real, length: real) {
    exists i :: 0 <= i < |samples| && t <= samples[i].time <= t + length
  }

  /** Every stretch of the gap's length inside the window holds a sample. */
  ghost predicate EveryStretchHit(samples: seq<Sample>, start: real, end: real, maxGap: real) {
    forall t :: start <= t && t + maxGap <= end ==> Hit(samples, t, maxGap)
  }

  lemma StretchHit(samples: seq<Sample>, start: real, end: real, maxGap: real, t: real)
    requires Covered(samples, start, end, maxGap) && start <= t && t + maxGap <= end
    ensures Hit(samples, t, maxGap)
  {
    var last := |samples| - 1;
    if t <= samples[0].time {
      assert t <= samples[0].time <= t + maxGap;
    } else if t >= samples[last].time {
      assert t <= samples[last].time <= t + maxGap;
    } else {
      StepAcross(samples, t, last);
      var i :| 0 <= i < last && samples[i].time <= t < samples[i + 1].time;
      assert t <= samples[i + 1].time <= t + maxGap;
    }
  }

  /** For samples in order the gate is exact: it accepts when, and only when, there are samples and no
      stretch of the gap's length inside the window is empty. */
  lemma CoverageExactly(samples: seq<Sample>, start: real, end: real, maxGap: real)
    requires InTimeOrder(samples) && maxGap >= 0.0
    requires forall i :: 0 <= i < |samples| ==> Inside(samples[i], start, end)
    ensures Covered(samples, start, end, maxGap) <==> |samples| > 0 && EveryStretchHit(samples, start, end, maxGap)
  {
    if Covered(samples, start, end, maxGap) {
      forall t | start <= t && t + maxGap <= end ensures Hit(samples, t, maxGap) {
        StretchHit(samples, start, end, maxGap, t);
      }
    }
    if |samples| > 0 && EveryStretchHit(samples, start, end, maxGap) {
      var last := |samples| - 1;
      assert Inside(samples[0], start, end) && Inside(samples[last], start, end);
      if start + maxGap <= end {
        assert Hit(samples, start, maxGap) && Hit(samples, end - maxGap, maxGap);
      }
      forall i | 0 <= i < last ensures samples[i + 1].time - samples[i].time <= maxGap {
        EmptyStretch(samples, start, end, maxGap, i);
      }
    }
  }

  lemma NoneBetween(samples: seq<Sample>, i: nat, t: real, length: real)
    requires InTimeOrder(samples) && i < |samples| - 1
    requires samples[i].time < t && t + length < samples[i + 1].time
    ensures !Hit(samples, t, length)
  {
    forall k | 0 <= k < |samples| ensures !(t <= samples[k].time <= t + length) {
      assert k < i ==> samples[k].time <= samples[i].time;
      assert k > i + 1 ==> samples[i + 1].time <= samples[k].time;
    }
  }

  /** Between neighbours further apart than the gap lies a stretch without a sample. */
  lemma EmptyStretch(samples: seq<Sample>, start: real, end: real, maxGap: real, i: nat)
    requires InTimeOrder(samples) && maxGap >= 0.0 && i < |samples| - 1
    requires forall k :: 0 <= k < |samples| ==> Inside(samples[k], start, end)
    requires EveryStretchHit(samples, start, end, maxGap)
    ensures samples[i + 1].time - samples[i].time <= maxGap
  {
    var left, right := samples[i].time, samples[i + 1].time;
    assert Inside(samples[i], start, end) && Inside(samples[i + 1], start, end);
    var t := left + (right - left - maxGap) / 2.0;
    if right - left > maxGap {
      assert left < t && t + maxGap < right;
      NoneBetween(samples, i, t, maxGap);
    }
  }

  // ----- the open-loop gate over labelled series -----

  function Magnitude(x: real): real { if x < 0.0 then -x else x }

  /** Equal up to one part in 10^9, or up to 10^-9. */
  predicate Close(a: real, b: real) {
    var larger := if Magnitude(a) < Magnitude(b) then Magnitude(b) else Magnitude(a);
    Magnitude(a - b) <= 0.000000001 * larger || Magnitude(a - b) <= 0.000000001
  }

  function Named(series: seq<Series>, name: string): seq<Series> {
    if |series| == 0 then [] else
    Named(series[..|series| - 1], name) + (if series[|series| - 1].name == name then [series[|series| - 1]] else [])
  }

  ghost predicate CompleteFor(series: seq<Series>, name: string, start: real, end: real, maxGap: real,
                              expected: Option<real>) {
    && |Named(series, name)| == 1
    && var selected := Selected(Named(series, name)[0].values, start, end);
    && Covered(selected, start, end, maxGap)
    && (expected.Some? ==> forall i :: 0 <= i < |selected| ==> Close(selected[i].value, expected.value))
  }

  method FindSeries(series: seq<Series>, name: string) returns (matches: seq<Series>)
    ensures matches == Named(series, name)
  {
    matches := [];
    for i := 0 to |series|
      invariant matches == Named(series[..i], name)
    {
      assert series[..i + 1][..i] == series[..i];
      if series[i].name == name { matches := matches + [series[i]]; }
    }
    assert series[..|series|] == series;
  }

  /** The difference of `a` and `b` is at most 10^-9 of `m`. */
  ghost predicate Tolerates(m: real, a: real, b: real) {
    -m <= 1_000_000_000.0 * (a - b) <= m
  }

  /** Two values are close when they differ by at most 10^-9 of one or of either magnitude. */
  lemma CloseExactly(a: real, b: real)
    ensures Close(a, b) <==>
            || Tolerates(1.0, a, b) || Tolerates(a, a, b) || Tolerates(-a, a, b)
            || Tolerates(b, a, b) || Tolerates(-b, a, b)
  {
    var larger := if Magnitude(a) < Magnitude(b) then Magnitude(b) else Magnitude(a);
    var d := Magnitude(a - b);
    assert d <= 0.000000001 * larger <==> 1_000_000_000.0 * d <= larger;
  }

  /** A name is found once exactly when one series bears it, and it is that one. */
  lemma {:induction false} NamedOnce(series: seq<Series>, name: string, k: nat)
    requires k < |series| && series[k].name == name
    requires forall i :: 0 <= i < |series| && i != k ==> series[i].name != name
    ensures Named(series, name) == [series[k]]
  {
    var n := |series| - 1;
    if k < n {
      NamedOnce(series[..n], name, k);
    } else {
      NotNamed(series[..n], name);
    }
  }

  lemma {:induction false} NotNamed(series: seq<Series>, name: string)
    requires forall i :: 0 <= i < |series| ==> series[i].name != name
    ensures Named(series, name) == []
  {
    if |series| > 0 { NotNamed(series[..|series| - 1], name); }
  }

  function HasName(name: string): Series -> nat { (s: Series) => if s.name == name then 1 else 0 }

  lemma {:induction false} NamedSum(series: seq<Series>, name: string, n: nat)
    requires n <= |series|
    ensures |Named(series[..n], name)| == SumTo(series, n, HasName(name))
  {
    if n > 0 {
      NamedSum(series, name, n - 1);
      assert series[..n][..n - 1] == series[..n - 1];
    }
  }

  lemma NamedCount(series: seq<Series>, name: string)
    ensures |Named(series, name)| == |set i | 0 <= i < |series| && series[i].name == name|
  {
    NamedSum(series, name, |series|);
    assert series[..|series|] == series;
    SumCounts(series, |series|, HasName(name));
    assert Positions(series, |series|, HasName(name)) == set i | 0 <= i < |series| && series[i].name == name;
  }

  /** Accepts exactly when the query succeeded and every named series exists once, covers the window and
      holds its value. */
  method ValidateCompleteSeries(succeeded: bool, series: seq<Series>, names: seq<string>, start: real, end: real,
                                maxGap: real, expected: Option<real>) returns (ok: bool)
    ensures ok <==>
      && succeeded
      && forall n :: 0 <= n < |names| ==> CompleteFor(series, names[n], start, end, maxGap, expected)
  {
    hide Covered, Named, Selected, Close, Extremes;
    if !succeeded { return false; }
    for n := 0 to |names|
      invariant forall k :: 0 <= k < n ==> CompleteFor(series, names[k], start, end, maxGap, expected)
    {
      var matches := FindSeries(series, names[n]);
      if |matches| != 1 { return false; }
      var measured := Measure(matches[0].values, start, end, maxGap);
      if measured.None? { return false; }
      if expected.Some? {
        var selected := Selected(matches[0].values, start, end);
        for i := 0 to |selected|
          invariant forall k :: 0 <= k < i ==> Close(selected[k].value, expected.value)
        {
          if !Close(selected[i].value, expected.value) { return false; }
        }
      }
    }
    return true;
  }
}
