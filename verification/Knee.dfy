/** The saturation knee: one pass over the tested rates, against the rule it is meant to apply. */
module Knee {
  import opened Common

  /** One tested rate, aggregated over its repetitions; None where a population is empty. */
  datatype Point = Point(
    rate: real, schedulerValid: bool, repetitions: nat, p99: Option<real>,
    success: real, inFlightDrops: real, drained: real, errors: nat, healthEvents: nat,
    useful: real, offered: real, usefulCv: Option<real>, p99Cv: Option<real>)

  datatype Trigger =
    | LowSuccess | InFlightCeiling | Drained | ServiceErrors | HealthEvent | NoLatency | LowMarginalGain
    | LatencyElevated | LatencyPersisted

  /** The verdict; `Raised` stands for the exception that comparing an absent variation raises. */
  datatype Outcome =
    | Unattributed(rates: seq<real>)
    | TooFewPoints
    | Bracketed(lower: real, upper: real, triggers: seq<Trigger>, confirmation: Option<real>,
                efficiency: Option<real>, repeatable: bool)
    | NotReached(highest: real, candidate: Option<real>)
    | Raised

  // ----- signals at one rate -----

  function MarginalEfficiency(previous: Point, current: Point): Option<real> {
    if current.offered - previous.offered > 0.0
    then Some((current.useful - previous.useful) / (current.offered - previous.offered))
    else None
  }

  function Noted(found: seq<Trigger>, holds: bool, trigger: Trigger): (r: seq<Trigger>)
    ensures r == [] <==> found == [] && !holds
    ensures forall x :: x in r <==> x in found || (holds && x == trigger)
    ensures found <= r
  {
    if holds then found + [trigger] else found
  }

  predicate LowGain(previous: Point, current: Point) {
    MarginalEfficiency(previous, current).Some? && MarginalEfficiency(previous, current).value < 0.5
  }

  /** An efficiency is reported exactly when more was offered; it is the share of the added offer served. */
  ghost predicate Gains(previous: Point, current: Point, efficiency: Option<real>) {
    && (efficiency.Some? <==> current.offered > previous.offered)
    && (efficiency.Some? ==>
          efficiency.value * (current.offered - previous.offered) == current.useful - previous.useful)
  }

  /** More was offered, and less than half of the addition was served. */
  ghost predicate HalfLost(previous: Point, current: Point) {
    && current.offered > previous.offered
    && 2.0 * (current.useful - previous.useful) < current.offered - previous.offered
  }

  lemma EfficiencyExactly(previous: Point, current: Point)
    ensures Gains(previous, current, MarginalEfficiency(previous, current))
    ensures LowGain(previous, current) <==> HalfLost(previous, current)
  {
    var offered, useful := current.offered - previous.offered, current.useful - previous.useful;
    if offered > 0.0 { RatioCompare(useful, offered, 0.5); }
  }

  /** The place of a signal in a report. */
  function Place(trigger: Trigger): nat {
    match trigger
    case LowSuccess => 0
    case InFlightCeiling => 1
    case Drained => 2
    case ServiceErrors => 3
    case HealthEvent => 4
    case NoLatency => 5
    case LowMarginalGain => 6
    case LatencyElevated => 7
    case LatencyPersisted => 8
  }

  ghost predicate InReportingOrder(found: seq<Trigger>) {
    forall i, j :: 0 <= i < j < |found| ==> Place(found[i]) < Place(found[j])
  }

  /** Which capacity signals are listed, read off the two points. */
  ghost predicate SignalsListed(previous: Point, current: Point, found: seq<Trigger>) {
    && (LowSuccess in found <==> current.success < 0.99)
    && (InFlightCeiling in found <==> current.inFlightDrops > 0.0)
    && (Drained in found <==> current.drained > 0.01)
    && (ServiceErrors in found <==> current.errors > 0)
    && (HealthEvent in found <==> current.healthEvents > 0)
    && (NoLatency in found <==> current.p99.None?)
    && (LowMarginalGain in found <==> HalfLost(previous, current))
    && LatencyPersisted !in found
  }

  lemma NotedInOrder(found: seq<Trigger>, holds: bool, trigger: Trigger)
    requires InReportingOrder(found) && forall x :: x in found ==> Place(x) < Place(trigger)
    ensures InReportingOrder(Noted(found, holds, trigger))
  {
    assert forall i :: 0 <= i < |found| ==> found[i] in found;
  }

  /** The capacity signals in reporting order. */
  function CapacityTriggers(previous: Point, current: Point): (found: seq<Trigger>)
    ensures found != [] <==> Stressed(previous, current)
    ensures LatencyElevated !in found && LatencyPersisted !in found
  {
    var served := Noted([], current.success < 0.99, LowSuccess);
    var admitted := Noted(served, current.inFlightDrops > 0.0, InFlightCeiling);
    var settled := Noted(admitted, current.drained > 0.01, Drained);
    var correct := Noted(settled, current.errors > 0, ServiceErrors);
    var healthy := Noted(correct, current.healthEvents > 0, HealthEvent);
    var measured := Noted(healthy, current.p99.None?, NoLatency);
    Noted(measured, LowGain(previous, current), LowMarginalGain)
  }

  /** The signs of trouble that one rate shows by itself. */
  predicate Failing(current: Point) {
    || current.success < 0.99 || current.inFlightDrops > 0.0 || current.drained > 0.01
    || current.errors > 0 || current.healthEvents > 0 || current.p99.None?
  }

  /** Direct evidence that offered work was not served cleanly, given the rate below. */
  predicate Stressed(previous: Point, current: Point) {
    Failing(current) || LowGain(previous, current)
  }

  /** A median p99 at least a quarter above that of the lowest rate. */
  predicate Slower(baseline: Point, current: Point) {
    current.p99.Some? && baseline.p99.Some? && current.p99.value >= baseline.p99.value * 1.25
  }

  predicate Steady(cv: Option<real>, limit: real) {
    cv.Some? && cv.value <= limit
  }

  /** Enough repetitions with little variation; no point is repeatable on an unmeasured variation. */
  predicate Repeatable(points: seq<Point>) {
    forall i :: 0 <= i < |points| ==>
      points[i].repetitions >= 5 && Steady(points[i].usefulCv, 0.10) && Steady(points[i].p99Cv, 0.15)
  }

  /** The one combination on which the latency confirmation compares an absent variation. */
  predicate ComparesAbsent(lower: Point, onset: Point, current: Point) {
    && lower.repetitions >= 5 && onset.repetitions >= 5 && current.repetitions >= 5
    && Steady(lower.usefulCv, 0.10) && Steady(onset.usefulCv, 0.10) && current.usefulCv.None?
    && lower.p99Cv.Some? && onset.p99Cv.Some? && current.p99Cv.Some?
  }

  // ----- the rule -----

  predicate Elevated(ps: seq<Point>, t: int) {
    1 <= t < |ps| && Slower(ps[0], ps[t])
  }

  /** An elevation that the very next rate repeats. */
  predicate Confirmed(ps: seq<Point>, t: int) {
    Elevated(ps, t - 1) && Elevated(ps, t)
  }

  predicate Overloaded(ps: seq<Point>, t: int) {
    1 <= t < |ps| && Stressed(ps[t - 1], ps[t])
  }

  predicate Decisive(ps: seq<Point>, t: int) {
    Confirmed(ps, t) || Overloaded(ps, t)
  }

  ghost predicate FirstDecisive(ps: seq<Point>, t: int) {
    Decisive(ps, t) && forall u :: u < t ==> !Decisive(ps, u)
  }

  /** What a confirmed elevation reports: the onset, and the rate below it. */
  function LatencyKnee(lower: Point, onset: Point, current: Point): Outcome {
    if ComparesAbsent(lower, onset, current) then Raised else
    Bracketed(lower.rate, onset.rate, [LatencyElevated, LatencyPersisted], Some(current.rate),
              MarginalEfficiency(lower, onset), Repeatable([lower, onset, current]))
  }

  /** What a capacity signal reports: the overloaded rate, and the rate below it. */
  function CapacityKnee(previous: Point, current: Point, elevated: bool): Outcome {
    Bracketed(previous.rate, current.rate, Noted(CapacityTriggers(previous, current), elevated, LatencyElevated), None,
              MarginalEfficiency(previous, current), Repeatable([previous, current]))
  }

  /** What is reported when rate `t` decides; a confirmed elevation takes precedence. */
  function Bracket(ps: seq<Point>, t: int): Outcome
    requires Decisive(ps, t)
  {
    if Confirmed(ps, t) then LatencyKnee(ps[t - 2], ps[t - 1], ps[t])
    else CapacityKnee(ps[t - 1], ps[t], Elevated(ps, t))
  }

  function InvalidRates(ps: seq<Point>): (rates: seq<real>)
    ensures rates == [] <==> forall i :: 0 <= i < |ps| ==> ps[i].schedulerValid
  {
    if |ps| == 0 then []
    else InvalidRates(ps[..|ps| - 1]) + (if ps[|ps| - 1].schedulerValid then [] else [ps[|ps| - 1].rate])
  }

  ghost predicate Evaluable(ps: seq<Point>) {
    |ps| >= 2 && forall i :: 0 <= i < |ps| ==> ps[i].schedulerValid
  }

  /** The rule itself: the first deciding rate, read off without any scan state. */
  ghost predicate Rule(ps: seq<Point>, o: Outcome) {
    if InvalidRates(ps) != [] then o == Unattributed(InvalidRates(ps))
    else if |ps| < 2 then o == TooFewPoints
    else if exists t :: FirstDecisive(ps, t) then exists t :: FirstDecisive(ps, t) && o == Bracket(ps, t)
    else o == NotReached(ps[|ps| - 1].rate, if Elevated(ps, |ps| - 1) then Some(ps[|ps| - 1].rate) else None)
  }

  lemma {:induction false} SomeFirst(ps: seq<Point>, t: int)
    requires Decisive(ps, t)
    ensures exists u :: u <= t && FirstDecisive(ps, u)
    decreases t
  {
    hide Confirmed, Overloaded;
    DecisiveInside(ps, t);
    if u :| u < t && Decisive(ps, u) {
      DecisiveInside(ps, u);
      SomeFirst(ps, u);
    } else {
      assert FirstDecisive(ps, t);
    }
  }

  lemma DecisiveInside(ps: seq<Point>, t: int)
    requires Decisive(ps, t)
    ensures 1 <= t < |ps|
  {
  }

  lemma OneFirst(ps: seq<Point>, t: int, u: int)
    requires FirstDecisive(ps, t) && FirstDecisive(ps, u)
    ensures t == u
  {
  }

  // ----- the scan -----

  datatype Pending = Pending(lower: Point, onset: Point, efficiency: Option<real>)

  /** The elevation waiting for confirmation once the rates below `t` have been scanned. */
  function PendingAt(ps: seq<Point>, t: int): Option<Pending>
    requires 1 <= t <= |ps|
  {
    if Elevated(ps, t - 1) then Some(Pending(ps[t - 2], ps[t - 1], MarginalEfficiency(ps[t - 2], ps[t - 1]))) else None
  }

  lemma SignalsExactly(previous: Point, current: Point)
    ensures SignalsListed(previous, current, CapacityTriggers(previous, current))
    ensures InReportingOrder(CapacityTriggers(previous, current))
  {
    EfficiencyExactly(previous, current);
    SignalsInOrder(previous, current);
    hide HalfLost, LowGain, Stressed, InReportingOrder, Noted, Failing;
  }

  lemma SignalsInOrder(previous: Point, current: Point)
    ensures InReportingOrder(CapacityTriggers(previous, current))
  {
    hide LowGain, Stressed, InReportingOrder, Noted;
    NothingListed();
    var served := Noted([], current.success < 0.99, LowSuccess);
    var admitted := Noted(served, current.inFlightDrops > 0.0, InFlightCeiling);
    var settled := Noted(admitted, current.drained > 0.01, Drained);
    var correct := Noted(settled, current.errors > 0, ServiceErrors);
    var healthy := Noted(correct, current.healthEvents > 0, HealthEvent);
    var measured := Noted(healthy, current.p99.None?, NoLatency);
    NotedNext([], current.success < 0.99, LowSuccess);
    NotedNext(served, current.inFlightDrops > 0.0, InFlightCeiling);
    NotedNext(admitted, current.drained > 0.01, Drained);
    NotedNext(settled, current.errors > 0, ServiceErrors);
    NotedNext(correct, current.healthEvents > 0, HealthEvent);
    NotedNext(healthy, current.p99.None?, NoLatency);
    NotedNext(measured, LowGain(previous, current), LowMarginalGain);
  }

  /** All signals listed come before `place`. */
  ghost predicate Before(found: seq<Trigger>, place: nat) {
    forall x :: x in found ==> Place(x) < place
  }

  lemma NotedNext(found: seq<Trigger>, holds: bool, trigger: Trigger)
    requires InReportingOrder(found) && Before(found, Place(trigger))
    ensures InReportingOrder(Noted(found, holds, trigger)) && Before(Noted(found, holds, trigger), Place(trigger) + 1)
  {
    NotedInOrder(found, holds, trigger);
  }

  lemma NothingListed()
    ensures InReportingOrder([]) && Before([], 0)
  {
  }

  method ScanCapacity(previous: Point, current: Point) returns (found: seq<Trigger>, efficiency: Option<real>)
    ensures found == CapacityTriggers(previous, current)
    ensures efficiency == MarginalEfficiency(previous, current)
    ensures SignalsListed(previous, current, found) && LatencyElevated !in found && InReportingOrder(found)
    ensures Gains(previous, current, efficiency)
  {
    SignalsExactly(previous, current);
    EfficiencyExactly(previous, current);
    hide Stressed, SignalsListed, InReportingOrder, Gains;
    found := [];
    if current.success < 0.99 { found := found + [LowSuccess]; }
    if current.inFlightDrops > 0.0 { found := found + [InFlightCeiling]; }
    if current.drained > 0.01 { found := found + [Drained]; }
    if current.errors > 0 { found := found + [ServiceErrors]; }
    if current.healthEvents > 0 { found := found + [HealthEvent]; }
    if current.p99.None? { found := found + [NoLatency]; }
    efficiency := None;
    var delta := current.offered - previous.offered;
    if delta > 0.0 {
      efficiency := Some((current.useful - previous.useful) / delta);
      if efficiency.value < 0.5 { found := found + [LowMarginalGain]; }
    }
  }

  /** The confirmation branch; None when comparing an absent variation raises. */
  method ConfirmRepeatable(lower: Point, onset: Point, current: Point) returns (r: Option<bool>)
    ensures r.None? <==> ComparesAbsent(lower, onset, current)
    ensures r.Some? ==> r.value == Repeatable([lower, onset, current])
  {
    assert Repeatable([lower, onset, current]) <==> Repeats(lower) && Repeats(onset) && Repeats(current) by {
      RepeatsAll([lower, onset, current]);
    }
    var repetitions := Min(Min(lower.repetitions, onset.repetitions), current.repetitions);
    if repetitions < 5 { return Some(false); }
    if lower.usefulCv.None? || onset.usefulCv.None? { return Some(false); }
    if lower.p99Cv.None? || onset.p99Cv.None? || current.p99Cv.None? { return Some(false); }
    if lower.usefulCv.value > 0.10 || onset.usefulCv.value > 0.10 { return Some(false); }
    if current.usefulCv.None? { return None; }
    return Some(current.usefulCv.value <= 0.10 && lower.p99Cv.value <= 0.15 && onset.p99Cv.value <= 0.15
                && current.p99Cv.value <= 0.15);
  }

  predicate Repeats(p: Point) {
    p.repetitions >= 5 && Steady(p.usefulCv, 0.10) && Steady(p.p99Cv, 0.15)
  }

  lemma RepeatsAll(points: seq<Point>)
    ensures Repeatable(points) <==> forall i :: 0 <= i < |points| ==> Repeats(points[i])
    ensures |points| == 3 ==> (Repeatable(points) <==> Repeats(points[0]) && Repeats(points[1]) && Repeats(points[2]))
    ensures |points| == 2 ==> (Repeatable(points) <==> Repeats(points[0]) && Repeats(points[1]))
  {
  }

  method StressRepeatable(previous: Point, current: Point) returns (r: bool)
    ensures r == Repeatable([previous, current])
  {
    RepeatsAll([previous, current]);
    return Min(previous.repetitions, current.repetitions) >= 5
        && previous.usefulCv.Some? && current.usefulCv.Some? && previous.p99Cv.Some? && current.p99Cv.Some?
        && previous.usefulCv.value <= 0.10 && current.usefulCv.value <= 0.10
        && previous.p99Cv.value <= 0.15 && current.p99Cv.value <= 0.15;
  }

  lemma ScanSignals(ps: seq<Point>, t: int)
    requires 1 <= t < |ps|
    ensures Elevated(ps, t) == Slower(ps[0], ps[t])
    ensures Confirmed(ps, t) <==> PendingAt(ps, t).Some? && Slower(ps[0], ps[t])
    ensures Overloaded(ps, t) <==> CapacityTriggers(ps[t - 1], ps[t]) != []
  {
  }

  lemma RuleAtFirst(ps: seq<Point>, t: int)
    requires InvalidRates(ps) == [] && FirstDecisive(ps, t)
    ensures Rule(ps, Bracket(ps, t))
  {
    hide Confirmed, Overloaded, Bracket, InvalidRates;
    DecisiveInside(ps, t);
  }

  ghost predicate NoneBelow(ps: seq<Point>, t: int) {
    forall u :: u < t ==> !Decisive(ps, u)
  }

  lemma NoneBelowExtends(ps: seq<Point>, t: int)
    ensures NoneBelow(ps, t) && !Confirmed(ps, t) && !Overloaded(ps, t) ==> NoneBelow(ps, t + 1)
    ensures NoneBelow(ps, t) && Decisive(ps, t) ==> FirstDecisive(ps, t)
  {
    hide Confirmed, Overloaded;
  }

  lemma RuleAtEnd(ps: seq<Point>)
    requires InvalidRates(ps) == [] && |ps| >= 2 && NoneBelow(ps, |ps|)
    ensures Rule(ps, NotReached(ps[|ps| - 1].rate,
                                if PendingAt(ps, |ps|).Some? then Some(PendingAt(ps, |ps|).value.onset.rate) else None))
  {
    hide Confirmed, Overloaded, Bracket, InvalidRates;
    forall t ensures !Decisive(ps, t) {
      if Decisive(ps, t) { DecisiveInside(ps, t); }
    }
  }

  /** One pass, remembering only the previous rate and a pending elevation, applies the rule. */
  method InferKnee(ps: seq<Point>) returns (o: Outcome)
    ensures Rule(ps, o)
  {
    hide CapacityTriggers, MarginalEfficiency, Repeatable, Slower, Stressed, ComparesAbsent, InvalidRates,
         NoneBelow, Confirmed, Elevated, Overloaded, Rule, Noted;
    RuleWhenNotEvaluable(ps);
    var invalid := InvalidRates(ps);
    if invalid != [] { return Unattributed(invalid); }
    if |ps| < 2 { return TooFewPoints; }
    StartOfScan(ps);
    var baseline := ps[0];
    var previous := baseline;
    var pending: Option<Pending> := None;
    for t := 1 to |ps|
      invariant previous == ps[t - 1] && pending == PendingAt(ps, t) && NoneBelow(ps, t)
    {
      var current := ps[t];
      ScanSignals(ps, t);
      NoneBelowExtends(ps, t);
      var triggers, efficiency := ScanCapacity(previous, current);
      var elevated := Slower(baseline, current);
      if pending.Some? && elevated {
        RuleAtFirst(ps, t);
        var lower, onset := pending.value.lower, pending.value.onset;
        var repeatable := ConfirmRepeatable(lower, onset, current);
        if repeatable.None? { return Raised; }
        return Bracketed(lower.rate, onset.rate, [LatencyElevated, LatencyPersisted], Some(current.rate),
                         pending.value.efficiency, repeatable.value);
      }
      if triggers != [] {
        RuleAtFirst(ps, t);
        triggers := Noted(triggers, elevated, LatencyElevated);
        var repeatable := StressRepeatable(previous, current);
        return Bracketed(previous.rate, current.rate, triggers, None, efficiency, repeatable);
      }
      pending := if elevated then Some(Pending(previous, current, efficiency)) else None;
      previous := current;
    }
    RuleAtEnd(ps);
    o := NotReached(ps[|ps| - 1].rate, if pending.Some? then Some(pending.value.onset.rate) else None);
  }

  lemma RuleWhenNotEvaluable(ps: seq<Point>)
    ensures InvalidRates(ps) != [] ==> Rule(ps, Unattributed(InvalidRates(ps)))
    ensures InvalidRates(ps) == [] && |ps| < 2 ==> Rule(ps, TooFewPoints)
  {
    hide Decisive, InvalidRates;
  }

  lemma StartOfScan(ps: seq<Point>)
    requires |ps| >= 1
    ensures PendingAt(ps, 1) == None && NoneBelow(ps, 1)
  {
  }

  // ----- what the rule means -----

  /** The rule leaves nothing open. */
  lemma RuleDetermines(ps: seq<Point>, a: Outcome, b: Outcome)
    requires Rule(ps, a) && Rule(ps, b)
    ensures a == b
  {
    hide Bracket, Decisive, InvalidRates, Elevated;
    if InvalidRates(ps) == [] && |ps| >= 2 {
      if exists t :: FirstDecisive(ps, t) {
        var t :| FirstDecisive(ps, t) && a == Bracket(ps, t);
        var u :| FirstDecisive(ps, u) && b == Bracket(ps, u);
        OneFirst(ps, t, u);
      }
    }
  }

  ghost predicate FirstConfirmed(ps: seq<Point>, t: int) {
    Confirmed(ps, t) && forall u :: u < t ==> !Confirmed(ps, u)
  }

  ghost predicate FirstOverloaded(ps: seq<Point>, t: int) {
    Overloaded(ps, t) && forall u :: u < t ==> !Overloaded(ps, u)
  }

  /** The first confirmed elevation decides unless an overload comes strictly earlier. */
  lemma LatencyPrecedence(ps: seq<Point>, o: Outcome, k: int)
    requires Evaluable(ps) && Rule(ps, o) && FirstConfirmed(ps, k)
    requires forall c :: c < k ==> !Overloaded(ps, c)
    ensures o.Raised? || o.Bracketed?
    ensures o.Bracketed? ==>
      o.lower == ps[k - 2].rate && o.upper == ps[k - 1].rate && o.confirmation == Some(ps[k].rate)
    ensures o.Raised? <==> ComparesAbsent(ps[k - 2], ps[k - 1], ps[k])
  {
    hide Elevated, ComparesAbsent, Overloaded, Slower;
    assert FirstDecisive(ps, k);
    forall u | FirstDecisive(ps, u) ensures u == k { OneFirst(ps, k, u); }
  }

  /** Otherwise the first overload does. */
  lemma CapacityPrecedence(ps: seq<Point>, o: Outcome, c: int)
    requires Evaluable(ps) && Rule(ps, o) && FirstOverloaded(ps, c)
    requires forall k :: k <= c ==> !Confirmed(ps, k)
    ensures o.Bracketed? && o.lower == ps[c - 1].rate && o.upper == ps[c].rate && o.confirmation == None
    ensures CapacityTriggers(ps[c - 1], ps[c]) <= o.triggers
  {
    hide Elevated, Overloaded, Slower;
    assert FirstDecisive(ps, c);
    forall u | FirstDecisive(ps, u) ensures u == c { OneFirst(ps, c, u); }
    DecisiveInside(ps, c);
  }

  /** The knee is not reached exactly when no rate above the lowest is overloaded and no two neighbours are
      both elevated, so isolated elevations never bracket, however many there are. */
  lemma NotReachedExactly(ps: seq<Point>, o: Outcome)
    requires Evaluable(ps) && Rule(ps, o)
    ensures o.NotReached? <==>
      forall t :: 1 <= t < |ps| ==> !Overloaded(ps, t) && !Confirmed(ps, t)
  {
    hide Elevated, Overloaded;
    if t :| 1 <= t < |ps| && (Overloaded(ps, t) || Confirmed(ps, t)) {
      SomeFirst(ps, t);
    } else if t :| FirstDecisive(ps, t) {
      DecisiveInside(ps, t);
      assert Overloaded(ps, t) || Confirmed(ps, t);
    } else {
      assert InvalidRates(ps) == [];
    }
  }

  /** The lowest rate is never judged: when the knee is not reached, some tested rate nevertheless fails by
      itself exactly when the lowest one does. */
  lemma NotReachedFails(ps: seq<Point>, o: Outcome)
    requires Evaluable(ps) && Rule(ps, o) && o.NotReached?
    ensures (exists i :: 0 <= i < |ps| && Failing(ps[i])) <==> Failing(ps[0])
  {
    hide Failing, LowGain;
    NotReachedExactly(ps, o);
    if i :| 0 <= i < |ps| && Failing(ps[i]) {
      assert i > 0 ==> Overloaded(ps, i);
    }
  }

  /** The bracket's lower and upper rates are those of points `i` and `i + 1`. */
  ghost predicate Reports(ps: seq<Point>, o: Outcome, i: int) {
    o.Bracketed? && 0 <= i < |ps| - 1 && o.lower == ps[i].rate && o.upper == ps[i + 1].rate
  }

  /** Every bracket is a pair of neighbouring tested rates.  Its lower point fails by itself exactly when it
      is the lowest rate and that one fails; above the lowest rate it is not overloaded, and not elevated
      either after a confirmed elevation. */
  lemma BracketsNeighbours(ps: seq<Point>, o: Outcome)
    requires Rule(ps, o) && o.Bracketed?
    ensures exists i :: Reports(ps, o, i)
                        && (Failing(ps[i]) <==> i == 0 && Failing(ps[0]))
                        && (i > 0 ==> !Overloaded(ps, i))
                        && (i > 0 && o.confirmation.Some? ==> !Slower(ps[0], ps[i]))
  {
    hide Slower, ComparesAbsent, CapacityTriggers, Failing, LowGain;
    var t :| FirstDecisive(ps, t) && o == Bracket(ps, t);
    var i := LowerIndex(ps, t);
    LowerUndecided(ps, t);
    assert Reports(ps, o, i);
    assert i > 0 && Failing(ps[i]) ==> Overloaded(ps, i);
  }

  /** At least five repetitions, a throughput variation of at most 10% and a p99 variation of at most 15%. */
  ghost predicate WellRepeated(p: Point) {
    && p.repetitions >= 5 && p.usefulCv.Some? && p.usefulCv.value <= 0.10 && p.p99Cv.Some? && p.p99Cv.value <= 0.15
  }

  /** A p99 of at least five quarters of the baseline's. */
  ghost predicate AQuarterUp(baseline: Point, current: Point) {
    current.p99.Some? && baseline.p99.Some? && 4.0 * current.p99.value >= 5.0 * baseline.p99.value
  }

  /** Everything a bracket between points `i` and `i + 1` reports.  A confirmed one names the two latency
      signals and the confirming rate; the other lists the capacity signals of its upper point. */
  ghost predicate BracketSays(ps: seq<Point>, o: Outcome, i: int)
    requires Reports(ps, o, i)
  {
    && Gains(ps[i], ps[i + 1], o.efficiency)
    && (if o.confirmation.Some? then
          && i + 2 < |ps| && o.confirmation.value == ps[i + 2].rate && o.triggers == [LatencyElevated, LatencyPersisted]
          && AQuarterUp(ps[0], ps[i + 1]) && AQuarterUp(ps[0], ps[i + 2])
          && (o.repeatable <==> WellRepeated(ps[i]) && WellRepeated(ps[i + 1]) && WellRepeated(ps[i + 2]))
        else
          && SignalsListed(ps[i], ps[i + 1], o.triggers) && InReportingOrder(o.triggers)
          && (LatencyElevated in o.triggers <==> AQuarterUp(ps[0], ps[i + 1]))
          && (o.repeatable <==> WellRepeated(ps[i]) && WellRepeated(ps[i + 1])))
  }

  /** What every bracket reports, read off the points. */
  lemma BracketReads(ps: seq<Point>, o: Outcome)
    requires Rule(ps, o) && o.Bracketed?
    ensures exists i :: Reports(ps, o, i) && BracketSays(ps, o, i)
  {
    hide Rule, Gains, SignalsListed, InReportingOrder, CapacityTriggers, MarginalEfficiency, ComparesAbsent;
    var t := BracketDecided(ps, o);
    DecisiveInside(ps, t);
    if Confirmed(ps, t) {
      EfficiencyExactly(ps[t - 2], ps[t - 1]);
      ConfirmedSays(ps, o, t);
      assert Reports(ps, o, t - 2);
    } else {
      EfficiencyExactly(ps[t - 1], ps[t]);
      CapacitySays(ps, o, t);
      assert Reports(ps, o, t - 1);
    }
  }

  lemma BracketDecided(ps: seq<Point>, o: Outcome) returns (t: int)
    requires Rule(ps, o) && o.Bracketed?
    ensures FirstDecisive(ps, t) && o == Bracket(ps, t)
  {
    hide Bracket;
    t :| FirstDecisive(ps, t) && o == Bracket(ps, t);
  }

  lemma ConfirmedSays(ps: seq<Point>, o: Outcome, t: int)
    requires Decisive(ps, t) && Confirmed(ps, t) && o == Bracket(ps, t) && o.Bracketed?
    ensures 2 <= t < |ps| && Reports(ps, o, t - 2) && BracketSays(ps, o, t - 2)
  {
    ElevatedInside(ps, t - 1);
    RepeatsAll([ps[t - 2], ps[t - 1], ps[t]]);
    EfficiencyExactly(ps[t - 2], ps[t - 1]);
    hide Gains, MarginalEfficiency, ComparesAbsent, Repeatable;
  }

  lemma CapacitySays(ps: seq<Point>, o: Outcome, t: int)
    requires Decisive(ps, t) && !Confirmed(ps, t) && o == Bracket(ps, t)
    ensures 1 <= t < |ps| && Reports(ps, o, t - 1) && BracketSays(ps, o, t - 1)
  {
    DecisiveInside(ps, t);
    RepeatsAll([ps[t - 1], ps[t]]);
    EfficiencyExactly(ps[t - 1], ps[t]);
    SignalsExactly(ps[t - 1], ps[t]);
    hide Gains, MarginalEfficiency, Repeatable, CapacityTriggers, HalfLost, InReportingOrder, Stressed, Confirmed;
    BeforeLatency(CapacityTriggers(ps[t - 1], ps[t]));
    NotedInOrder(CapacityTriggers(ps[t - 1], ps[t]), Elevated(ps, t), LatencyElevated);
  }

  lemma BeforeLatency(found: seq<Trigger>)
    requires LatencyElevated !in found && LatencyPersisted !in found
    ensures forall x :: x in found ==> Place(x) < Place(LatencyElevated)
  {
  }

  /** The rates reported as unattributed are those of the points not validly scheduled, in their order. */
  lemma {:induction false} InvalidListed(ps: seq<Point>) returns (at: seq<nat>)
    ensures |at| == |InvalidRates(ps)|
    ensures forall k :: 0 <= k < |at| ==> at[k] < |ps| && InvalidRates(ps)[k] == ps[at[k]].rate
    ensures forall k, l :: 0 <= k < l < |at| ==> at[k] < at[l]
    ensures forall i :: 0 <= i < |ps| ==> (i in at <==> !ps[i].schedulerValid)
  {
    at := [];
    if |ps| > 0 {
      var n := |ps| - 1;
      var front := ps[..n];
      at := InvalidListed(front);
      assert forall i :: 0 <= i < n ==> front[i] == ps[i];
      assert InvalidRates(ps) == InvalidRates(front) + (if ps[n].schedulerValid then [] else [ps[n].rate]);
      hide InvalidRates;
      if !ps[n].schedulerValid { at := at + [n]; }
    }
  }

  /** Without a bracket: a sweep with invalid scheduling is not attributed, one of fewer than two rates is too
      short, and otherwise the highest rate is named, as a candidate too if its p99 is a quarter up. */
  lemma NoBracketSays(ps: seq<Point>, o: Outcome)
    requires Rule(ps, o)
    ensures o.Unattributed? <==> exists i :: 0 <= i < |ps| && !ps[i].schedulerValid
    ensures o.Unattributed? ==> o.rates == InvalidRates(ps)
    ensures o.TooFewPoints? <==> |ps| < 2 && forall i :: 0 <= i < |ps| ==> ps[i].schedulerValid
    ensures o.NotReached? ==> |ps| >= 2 && o.highest == ps[|ps| - 1].rate
    ensures o.NotReached? ==> o.candidate == if AQuarterUp(ps[0], ps[|ps| - 1]) then Some(o.highest) else None
  {
    hide InvalidRates, Decisive;
    InvalidExactly(ps);
  }

  /** Where the bracket of deciding rate `t` starts. */
  function LowerIndex(ps: seq<Point>, t: int): int {
    if Confirmed(ps, t) then t - 2 else t - 1
  }

  lemma LowerUndecided(ps: seq<Point>, t: int)
    requires FirstDecisive(ps, t)
    ensures 0 <= LowerIndex(ps, t) < |ps| - 1
    ensures !Overloaded(ps, LowerIndex(ps, t))
    ensures Elevated(ps, LowerIndex(ps, t)) ==> !Confirmed(ps, t) && !Elevated(ps, t)
  {
    hide Slower, Stressed;
    DecisiveInside(ps, t);
    assert !Decisive(ps, t - 1) && !Decisive(ps, t - 2);
    if Confirmed(ps, t) { ElevatedInside(ps, t - 1); }
  }

  lemma ElevatedInside(ps: seq<Point>, t: int)
    requires Elevated(ps, t)
    ensures 1 <= t < |ps|
  {
  }

  /** Rates are tested in ascending order, each once. */
  ghost predicate AscendingRates(ps: seq<Point>) {
    forall i, j :: 0 <= i < j < |ps| ==> ps[i].rate < ps[j].rate
  }

  lemma RatesTell(ps: seq<Point>, i: int, k: int)
    requires AscendingRates(ps) && 0 <= i < |ps| && 0 <= k < |ps| && ps[i].rate == ps[k].rate
    ensures i == k
  {
  }

  /** On ascending rates: the rate reported as clean fails by itself exactly when it is the lowest rate, which
      is never judged, and that one fails. */
  lemma CleanRateFails(ps: seq<Point>, o: Outcome)
    requires Rule(ps, o) && o.Bracketed? && AscendingRates(ps)
    ensures (exists i :: 0 <= i < |ps| && ps[i].rate == o.lower && Failing(ps[i])) <==>
            o.lower == ps[0].rate && Failing(ps[0])
  {
    hide Failing, Rule, Slower, Overloaded;
    BracketsNeighbours(ps, o);
    var i :| Reports(ps, o, i) && (Failing(ps[i]) <==> i == 0 && Failing(ps[0]));
    forall k | 0 <= k < |ps| && ps[k].rate == o.lower ensures k == i {
      RatesTell(ps, i, k);
    }
  }

  /** Rate `c` is the first overloaded one; the p99 one below it is elevated and its own is not; and no two
      neighbours below it are elevated. */
  ghost predicate LoneElevationBelow(ps: seq<Point>, c: int) {
    && 2 <= c && FirstOverloaded(ps, c) && Slower(ps[0], ps[c - 1]) && !Slower(ps[0], ps[c])
    && forall k :: 2 <= k < c ==> !(Slower(ps[0], ps[k - 1]) && Slower(ps[0], ps[k]))
  }

  /** The rate reported as clean has a p99 at least a quarter above the baseline's exactly for sweeps whose
      first overloaded rate follows a lone elevation that it does not repeat. */
  lemma CleanRateElevated(ps: seq<Point>, o: Outcome)
    requires Evaluable(ps) && Rule(ps, o) && AscendingRates(ps)
    ensures (o.Bracketed? && exists i :: 1 <= i < |ps| && ps[i].rate == o.lower && Slower(ps[0], ps[i])) <==>
            exists c :: LoneElevationBelow(ps, c)
  {
    hide Stressed, Slower, Rule, Bracket;
    if c :| LoneElevationBelow(ps, c) {
      forall k | k <= c ensures !Confirmed(ps, k) {
        assert 2 <= k < c ==> !(Slower(ps[0], ps[k - 1]) && Slower(ps[0], ps[k]));
      }
      CapacityPrecedence(ps, o, c);
    }
    if o.Bracketed? {
      if i :| 1 <= i < |ps| && ps[i].rate == o.lower && Slower(ps[0], ps[i]) {
        ElevatedLower(ps, o);
      }
    }
  }

  lemma ElevatedLower(ps: seq<Point>, o: Outcome)
    requires Rule(ps, o) && o.Bracketed? && AscendingRates(ps)
    requires exists i :: 1 <= i < |ps| && ps[i].rate == o.lower && Slower(ps[0], ps[i])
    ensures exists c :: LoneElevationBelow(ps, c)
  {
    hide Stressed, Slower, ComparesAbsent, CapacityTriggers;
    var i :| 1 <= i < |ps| && ps[i].rate == o.lower && Slower(ps[0], ps[i]);
    var t :| FirstDecisive(ps, t) && o == Bracket(ps, t);
    LowerUndecided(ps, t);
    var k := LowerIndex(ps, t);
    RatesTell(ps, i, k);
    assert Elevated(ps, k);
    forall u | u < t ensures !Overloaded(ps, u) && !Confirmed(ps, u) { assert !Decisive(ps, u); }
    forall u | 2 <= u < t ensures !(Slower(ps[0], ps[u - 1]) && Slower(ps[0], ps[u])) { assert !Confirmed(ps, u); }
    assert LoneElevationBelow(ps, t);
  }

  /** The first deciding rate confirms an elevation, everything else allows a repeatable verdict, and the
      confirming rate has no measured throughput variation. */
  ghost predicate RaisesAt(ps: seq<Point>, t: int) {
    FirstDecisive(ps, t) && Confirmed(ps, t) && ComparesAbsent(ps[t - 2], ps[t - 1], ps[t])
  }

  /** On points taken as they come, the scan fails to report exactly there. */
  lemma RaisesExactly(ps: seq<Point>, o: Outcome)
    requires Evaluable(ps) && Rule(ps, o)
    ensures o.Raised? <==> exists t :: RaisesAt(ps, t)
  {
    hide Elevated, Overloaded, ComparesAbsent;
    if t :| FirstDecisive(ps, t) {
      forall u | FirstDecisive(ps, u) ensures u == t { OneFirst(ps, t, u); }
      assert Bracket(ps, t).Raised? <==> RaisesAt(ps, t);
    }
  }

  lemma SignalsAgree(ps: seq<Point>, qs: seq<Point>, t: int)
    requires 0 <= t < |ps|
    ensures Elevated(ps + qs, t) == Elevated(ps, t) && Overloaded(ps + qs, t) == Overloaded(ps, t)
    ensures Confirmed(ps + qs, t) == Confirmed(ps, t)
  {
  }

  lemma BracketAgrees(ps: seq<Point>, qs: seq<Point>, t: int)
    requires Decisive(ps, t) && Decisive(ps + qs, t)
    ensures Bracket(ps + qs, t) == Bracket(ps, t)
  {
    hide Slower, ComparesAbsent, CapacityTriggers, Repeatable, MarginalEfficiency, Stressed;
    DecisiveInside(ps, t);
    SignalsAgree(ps, qs, t);
  }

  lemma FirstAgrees(ps: seq<Point>, qs: seq<Point>, t: int)
    requires FirstDecisive(ps, t)
    ensures FirstDecisive(ps + qs, t)
  {
    hide Slower, Stressed, Elevated, Overloaded, Confirmed;
    DecisiveInside(ps, t);
    SignalsAgree(ps, qs, t);
    forall u | u < t ensures !Decisive(ps + qs, u) {
      if u >= 0 {
        SignalsAgree(ps, qs, u);
        assert !Decisive(ps, u);
      } else if Decisive(ps + qs, u) {
        DecisiveInside(ps + qs, u);
      }
    }
  }

  lemma InvalidOne(ps: seq<Point>, q: Point)
    ensures InvalidRates(ps + [q]) == InvalidRates(ps) + (if q.schedulerValid then [] else [q.rate])
  {
    assert (ps + [q])[..|ps|] == ps;
  }

  lemma {:induction false} InvalidAppend(ps: seq<Point>, qs: seq<Point>)
    ensures InvalidRates(ps + qs) == InvalidRates(ps) + InvalidRates(qs)
  {
    if |qs| == 0 {
      assert ps + qs == ps;
    } else {
      var n := |qs| - 1;
      var front, last := qs[..n], qs[n];
      assert qs == front + [last] && ps + qs == (ps + front) + [last];
      InvalidAppend(ps, front);
      InvalidOne(ps + front, last);
      InvalidOne(front, last);
      hide InvalidRates;
    }
  }

  /** Testing more rates above a bracket keeps it exactly when every added rate was validly scheduled. */
  lemma AppendingKeepsBracket(ps: seq<Point>, qs: seq<Point>, o: Outcome)
    requires Rule(ps, o) && o.Bracketed?
    ensures Rule(ps + qs, o) <==> forall i :: 0 <= i < |qs| ==> qs[i].schedulerValid
  {
    hide InvalidRates, Bracket, Decisive;
    InvalidAppend(ps, qs);
    InvalidExactly(qs);
    var t :| FirstDecisive(ps, t) && o == Bracket(ps, t);
    FirstAgrees(ps, qs, t);
    BracketAgrees(ps, qs, t);
  }

  lemma InvalidExactly(qs: seq<Point>)
    ensures InvalidRates(qs) == [] <==> forall i :: 0 <= i < |qs| ==> qs[i].schedulerValid
  {
  }

  /** A candidate reported without confirmation becomes the knee as soon as the next rate repeats it. */
  lemma CandidateConfirmed(ps: seq<Point>, q: Point, before: Outcome, after: Outcome)
    requires Rule(ps, before) && before.NotReached? && before.candidate.Some?
    requires q.schedulerValid && Slower(ps[0], q) && Rule(ps + [q], after)
    ensures after.Raised? || (after.Bracketed? && Some(after.upper) == before.candidate
                              && after.lower == ps[|ps| - 2].rate && after.confirmation == Some(q.rate))
  {
    hide Slower, Stressed, InvalidRates, CapacityTriggers;
    var n, rs := |ps|, ps + [q];
    InvalidAppend(ps, [q]);
    InvalidExactly([q]);
    assert Elevated(ps, n - 1);
    SignalsAgree(ps, [q], n - 1);
    assert Confirmed(rs, n);
    forall u | u < n ensures !Decisive(rs, u) {
      if u >= 0 {
        SignalsAgree(ps, [q], u);
        if Decisive(ps, u) { SomeFirst(ps, u); }
      }
    }
    assert FirstDecisive(rs, n);
    forall u | FirstDecisive(rs, u) ensures u == n { OneFirst(rs, n, u); }
  }

  /** `qs` is `ps` with some p99 above the baseline raised. */
  ghost predicate SlowerRun(ps: seq<Point>, qs: seq<Point>) {
    && |ps| == |qs| && (|ps| > 0 ==> qs[0] == ps[0])
    && (forall i :: 0 <= i < |ps| ==>
          qs[i] == ps[i].(p99 := qs[i].p99) && (ps[i].p99.Some? <==> qs[i].p99.Some?)
          && (ps[i].p99.Some? ==> ps[i].p99.value <= qs[i].p99.value))
  }

  /** Raising latencies above the baseline never moves the deciding rate later. */
  lemma SlowerDecidesNoLater(ps: seq<Point>, qs: seq<Point>, t: int)
    requires SlowerRun(ps, qs) && FirstDecisive(ps, t)
    ensures exists u :: u <= t && FirstDecisive(qs, u)
  {
    hide SlowerRun;
    DecisiveInside(ps, t);
    if Confirmed(ps, t) {
      ElevatedRises(ps, qs, t - 1);
      ElevatedRises(ps, qs, t);
    } else {
      OverloadRises(ps, qs, t);
    }
    SomeFirst(qs, t);
  }

  lemma ElevatedRises(ps: seq<Point>, qs: seq<Point>, t: int)
    requires SlowerRun(ps, qs) && Elevated(ps, t)
    ensures Elevated(qs, t)
  {
  }

  lemma OverloadRises(ps: seq<Point>, qs: seq<Point>, t: int)
    requires SlowerRun(ps, qs) && Overloaded(ps, t)
    ensures Overloaded(qs, t)
  {
    assert qs[t] == ps[t].(p99 := qs[t].p99) && qs[t - 1] == ps[t - 1].(p99 := qs[t - 1].p99);
  }
}
