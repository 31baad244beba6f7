/** The closed-loop signal emulator: how claimed sequences are spread over endpoints, connections and
    cache modes, and what the per-endpoint statistics add up to. */
module ClosedLoop {
  import opened Common
  import opened Text
  import opened OpenLoop
  import opened Claiming

  // ----- sharding -----

  function Connection(sequence: nat, targets: nat, connections: nat): nat
    requires targets > 0 && connections > 0
  {
    (sequence / targets) % connections
  }

  function OnEndpoint(targets: nat, e: nat): nat -> nat
    requires targets > 0
  {
    (sequence: nat) => if sequence % targets == e then 1 else 0
  }

  function OnPair(targets: nat, connections: nat, e: nat, c: nat): nat -> nat
    requires targets > 0 && connections > 0
  {
    (sequence: nat) => if sequence % targets == e && Connection(sequence, targets, connections) == c then 1 else 0
  }

  lemma Rearrange(a: nat, b: nat, p: nat, t: nat, r: nat)
    ensures a * (b * p + t) + r == (a * b) * p + (a * t + r)
  {
  }

  lemma DivisionIdentity(x: nat, m: nat)
    requires m > 0
    ensures x == m * (x / m) + x % m
  {
  }

  lemma TwoPlaces(a: nat, b: nat, p: nat, t: nat, r: nat)
    requires r < a && t < b
    ensures a * b > 0 && (a * (b * p + t) + r) % (a * b) == a * t + r
  {
    Rearrange(a, b, p, t, r);
    MulLe(t + 1, b, a);
    assert (t + 1) * a == a * t + a && b * a == a * b;
    DivModUnique(a * (b * p + t) + r, a * b, p, a * t + r);
  }

  lemma PairDecomposes(i: nat, a: nat, b: nat)
    requires a > 0 && b > 0
    ensures a * b > 0 && i % (a * b) == a * ((i / a) % b) + i % a
  {
    var q := i / a;
    DivisionIdentity(i, a);
    DivisionIdentity(q, b);
    assert i == a * (b * (q / b) + q % b) + i % a;
    TwoPlaces(a, b, q / b, q % b, i % a);
  }

  /** An endpoint and a connection are together one residue. */
  lemma PairIsResidue(i: nat, a: nat, b: nat, e: nat, c: nat)
    requires a > 0 && b > 0 && e < a && c < b
    ensures a * b > 0
    ensures i % a == e && (i / a) % b == c <==> i % (a * b) == a * c + e
  {
    PairDecomposes(i, a, b);
    var t, r := (i / a) % b, i % a;
    DivModUnique(a * t + r, a, t, r);
    DivModUnique(a * c + e, a, c, e);
  }

  lemma NextQuotient(n: nat, m: nat)
    requires m > 0
    ensures if n % m + 1 == m then (n + 1) / m == n / m + 1 && (n + 1) % m == 0
            else (n + 1) / m == n / m && (n + 1) % m == n % m + 1
  {
    var q, r := n / m, n % m;
    assert n == m * q + r;
    if r + 1 == m {
      assert n + 1 == m * (q + 1) + 0;
      DivModUnique(n + 1, m, q + 1, 0);
    } else {
      DivModUnique(n + 1, m, q, r + 1);
    }
  }

  function Share(n: nat, m: nat, r: nat): nat
    requires m > 0
  {
    n / m + (if r < n % m then 1 else 0)
  }

  /** A residue occurs among the first n numbers once per full round, and once more when the last round
      reaches it. */
  lemma {:induction false} ResidueCount(n: nat, m: nat, r: nat)
    requires m > 0 && r < m
    ensures Sum(UpTo(n), OnEndpoint(m, r)) == Share(n, m, r)
  {
    if n == 0 {
      assert 0 / m == 0 && 0 % m == 0;
    } else {
      ResidueCount(n - 1, m, r);
      SumToAgrees(UpTo(n), UpTo(n - 1), n - 1, OnEndpoint(m, r));
      NextQuotient(n - 1, m);
    }
  }

  lemma {:induction false} PairCount(n: nat, k: nat, a: nat, b: nat, e: nat, c: nat)
    requires a > 0 && b > 0 && e < a && c < b && k <= n
    ensures a * b > 0 && SumTo(UpTo(n), k, OnPair(a, b, e, c)) == SumTo(UpTo(n), k, OnEndpoint(a * b, a * c + e))
  {
    PairIsResidue(0, a, b, e, c);
    if k > 0 {
      PairCount(n, k - 1, a, b, e, c);
      PairIsResidue(k - 1, a, b, e, c);
    }
  }

  lemma UsedPair(used: seq<nat>, n: nat, a: nat, b: nat, e: nat, c: nat)
    requires multiset(used) == multiset(UpTo(n)) && a > 0 && b > 0 && e < a && c < b
    ensures a * b > 0 && a * c + e < a * b && Sum(used, OnPair(a, b, e, c)) == Share(n, a * b, a * c + e)
  {
    hide UpTo, Share, OnEndpoint, OnPair;
    MulLe(c + 1, b, a);
    SumPermuted(used, UpTo(n), OnPair(a, b, e, c));
    PairCount(n, n, a, b, e, c);
    ResidueCount(n, a * b, a * c + e);
  }

  /** In whatever order the sequences below n were sent, any two connections, on whatever endpoints, were
      used equally often up to one. */
  lemma PairsBalanced(used: seq<nat>, n: nat, a: nat, b: nat, e: nat, c: nat, f: nat, d: nat)
    requires multiset(used) == multiset(UpTo(n))
    requires a > 0 && b > 0 && e < a && f < a && c < b && d < b
    ensures Sum(used, OnPair(a, b, e, c)) <= Sum(used, OnPair(a, b, f, d)) + 1
  {
    hide UpTo, OnPair, Sum;
    UsedPair(used, n, a, b, e, c);
    UsedPair(used, n, a, b, f, d);
  }

  // ----- cache modes -----

  datatype CacheMode = Hit | Miss | Mixed

  predicate IsHit(mode: CacheMode, hitRatioBps: nat, sequence: nat) {
    match mode
    case Hit => true
    case Miss => false
    case Mixed => sequence % 10_000 < hitRatioBps
  }

  /** The hits among `n` consecutive sequences. */
  function Hits(mode: CacheMode, bps: nat, from: nat, n: nat): nat {
    if n == 0 then 0 else Hits(mode, bps, from, n - 1) + (if IsHit(mode, bps, from + n - 1) then 1 else 0)
  }

  lemma {:induction false} HitsSlide(mode: CacheMode, bps: nat, from: nat, n: nat)
    ensures Hits(mode, bps, from + 1, n) + (if IsHit(mode, bps, from) then 1 else 0)
         == Hits(mode, bps, from, n) + (if IsHit(mode, bps, from + n) then 1 else 0)
  {
    if n > 0 { HitsSlide(mode, bps, from, n - 1); }
  }

  lemma {:induction false} FirstHits(bps: nat, n: nat)
    requires bps <= 10_000 && n <= 10_000
    ensures Hits(Mixed, bps, 0, n) == Min(n, bps)
  {
    if n > 0 { FirstHits(bps, n - 1); }
  }

  /** Any 10,000 consecutive sequences hold exactly the configured number of hits, wherever they start. */
  lemma {:induction false} HitRatioExact(bps: nat, from: nat)
    requires bps <= 10_000
    ensures Hits(Mixed, bps, from, 10_000) == bps
  {
    if from == 0 {
      FirstHits(bps, 10_000);
    } else {
      HitRatioExact(bps, from - 1);
      HitsSlide(Mixed, bps, from - 1, 10_000);
    }
  }

  // ----- contexts -----

  const UNIQUE_PREFIX := "benchmark-unique|"
  const STABLE_PREFIX := "benchmark-stable-cache-key|"

  function Filled(prefix: string, fill: char, bytes: nat): string {
    prefix + Repeat(fill, Max(0, bytes - |prefix|))
  }

  function StableContext(bytes: nat): string {
    Filled(STABLE_PREFIX, 'h', bytes)
  }

  function UniquePrefix(runId: string, sequence: nat): string {
    UNIQUE_PREFIX + runId + "|" + Padded(sequence, 20) + "|"
  }

  function UniqueContext(runId: string, sequence: nat, bytes: nat): (s: string)
    ensures |s| == bytes
  {
    Filled(UniquePrefix(runId, sequence), 'u', bytes)[..bytes]
  }

  lemma WordPads(n: nat)
    requires n < WORD
    ensures |Padded(n, 20)| == 20
  {
    assert Pow10(20) == 100_000_000_000_000_000_000 by {
      assert Pow10(10) == 10_000_000_000;
      assert Pow10(15) == 1_000_000_000_000_000;
    }
    ShowLength(n, 20);
  }

  lemma UniqueHolds(runId: string, sequence: nat, bytes: nat)
    requires sequence < WORD && bytes >= 38 + |runId|
    ensures UniqueContext(runId, sequence, bytes)[18 + |runId|..38 + |runId|] == Padded(sequence, 20)
  {
    WordPads(sequence);
  }

  lemma LastDigit(bytes: nat, runId: string)
    requires bytes < 38 + |runId|
    ensures UniqueContext(runId, 0, bytes) == UniqueContext(runId, 1, bytes)
  {
    WordPads(0);
    WordPads(1);
    assert ShowNat(0) == "0" && ShowNat(1) == "1";
    var a, b := UniquePrefix(runId, 0), UniquePrefix(runId, 1);
    assert |a| == |b| == 39 + |runId|;
    assert a[..37 + |runId|] == b[..37 + |runId|];
    assert Filled(a, 'u', bytes) == a && Filled(b, 'u', bytes) == b by { Nothing(a, bytes); Nothing(b, bytes); }
  }

  lemma Nothing(prefix: string, bytes: nat)
    requires bytes <= |prefix|
    ensures Filled(prefix, 'u', bytes) == prefix
  {
  }

  /** Cache-missing contexts are pairwise different over all 64-bit sequences exactly when the configured
      size leaves room for the whole sequence number. */
  lemma UniqueExactly(runId: string, bytes: nat)
    ensures (forall s: nat, t: nat :: s < t < WORD ==> UniqueContext(runId, s, bytes) != UniqueContext(runId, t, bytes))
       <==> bytes >= 38 + |runId|
  {
    if bytes >= 38 + |runId| {
      forall s: nat, t: nat | s < t < WORD ensures UniqueContext(runId, s, bytes) != UniqueContext(runId, t, bytes) {
        UniqueHolds(runId, s, bytes);
        UniqueHolds(runId, t, bytes);
        PaddedParses(s, 20);
        PaddedParses(t, 20);
      }
    } else {
      LastDigit(bytes, runId);
    }
  }

  /** A hit never shares its context with a miss at any size the driver accepts. */
  lemma StableApart(runId: string, sequence: nat, bytes: nat)
    requires bytes >= 32
    ensures StableContext(bytes) != UniqueContext(runId, sequence, bytes)
    ensures |StableContext(bytes)| == |UniqueContext(runId, sequence, bytes)| == bytes
  {
    assert StableContext(bytes)[10] == 's';
    assert UniqueContext(runId, sequence, bytes)[10] == 'u';
  }

  /** The context of a request: the shared one for a hit, one of its own for a miss. */
  function ContextOf(mode: CacheMode, bps: nat, runId: string, sequence: nat, bytes: nat): string {
    if IsHit(mode, bps, sequence) then StableContext(bytes) else UniqueContext(runId, sequence, bytes)
  }

  /** In the pure modes everything, or nothing, hits. */
  lemma {:induction false} PureModes(bps: nat, from: nat, n: nat)
    ensures Hits(Hit, bps, from, n) == n && Hits(Miss, bps, from, n) == 0
  {
    if n > 0 { PureModes(bps, from, n - 1); }
  }

  /** At a size that holds the whole sequence number, two requests share their context exactly when both are meant
      to hit. */
  lemma RequestsShare(mode: CacheMode, bps: nat, runId: string, s: nat, t: nat, bytes: nat)
    requires s < t < WORD && bytes >= 38 + |runId|
    ensures ContextOf(mode, bps, runId, s, bytes) == ContextOf(mode, bps, runId, t, bytes) <==>
            match mode
            case Hit => true
            case Miss => false
            case Mixed => s % 10_000 < bps && t % 10_000 < bps
  {
    UniqueExactly(runId, bytes);
    StableApart(runId, s, bytes);
    StableApart(runId, t, bytes);
    hide UniqueContext, StableContext;
  }

  // ----- statistics -----

  datatype IssueOutcome = IssueOutcome(sequence: nat, status: string, elapsed: nat)

  datatype EndpointStats = EndpointStats(
    selected: nat, statuses: map<string, nat>, successful: nat, latencies: seq<nat>)

  function Sequences(h: seq<IssueOutcome>): (sequences: seq<nat>)
    ensures |sequences| == |h|
  {
    seq(|h|, i requires 0 <= i < |h| => h[i].sequence)
  }

  /** The outcomes of the requests that selected endpoint `e`. */
  function Served(h: seq<IssueOutcome>, targets: nat, e: nat): seq<Completion>
    requires targets > 0
  {
    if |h| == 0 then [] else
    var o := h[|h| - 1];
    Served(h[..|h| - 1], targets, e)
    + (if o.sequence % targets == e then [Completion(o.status, o.elapsed, true)] else [])
  }

  function Reading(served: seq<Completion>): EndpointStats {
    EndpointStats(|served|, Tally(served, Any), Sum(served, Kept(OkWithin)), RttsKept(served, OkWithin))
  }

  lemma ServeOne(h: seq<IssueOutcome>, o: IssueOutcome, targets: nat, e: nat)
    requires targets > 0
    ensures Served(h + [o], targets, e) ==
            if o.sequence % targets == e then Served(h, targets, e) + [Completion(o.status, o.elapsed, true)]
            else Served(h, targets, e)
  {
    assert (h + [o])[..|h|] == h;
  }

  lemma ReadOne(served: seq<Completion>, c: Completion)
    requires c.within
    ensures var before, after := Reading(served), Reading(served + [c]);
      after == EndpointStats(before.selected + 1, Bump(before.statuses, c.status),
                             before.successful + (if c.status == "OK" then 1 else 0),
                             before.latencies + (if c.status == "OK" then [c.rtt] else []))
  {
    CompleteOne(served, c, Any);
    CompleteOne(served, c, OkWithin);
  }

  lemma ReadNone()
    ensures Reading([]) == EndpointStats(0, map[], 0, [])
  {
  }

  lemma {:induction false} ReadingAgrees(served: seq<Completion>)
    requires forall i :: 0 <= i < |served| ==> served[i].within
    ensures var r := Reading(served);
      r.selected == Total(r.statuses) && r.successful == Get(r.statuses, "OK") == |r.latencies|
  {
    if |served| == 0 {
      ReadNone();
    } else {
      hide Reading, Total;
      var n := |served| - 1;
      ReadingAgrees(served[..n]);
      ReadOne(served[..n], served[n]);
      TotalBump(Reading(served[..n]).statuses, served[n].status);
      assert served[..n] + [served[n]] == served;
    }
  }

  lemma {:induction false} ServedWithin(h: seq<IssueOutcome>, targets: nat, e: nat)
    requires targets > 0
    ensures forall i :: 0 <= i < |Served(h, targets, e)| ==> Served(h, targets, e)[i].within
    ensures |Served(h, targets, e)| == Sum(Sequences(h), OnEndpoint(targets, e))
  {
    if |h| > 0 {
      var n := |h| - 1;
      ServedWithin(h[..n], targets, e);
      SumToAgrees(Sequences(h), Sequences(h[..n]), n, OnEndpoint(targets, e));
    }
  }

  /** A weight over an endpoint's completions, as a weight over all outcomes. */
  lemma {:induction false} ServedSum(h: seq<IssueOutcome>, targets: nat, e: nat, weight: Completion -> nat,
                                     over: IssueOutcome -> nat)
    requires targets > 0
    requires forall o :: over(o) ==
               if o.sequence % targets == e then weight(Completion(o.status, o.elapsed, true)) else 0
    ensures Sum(Served(h, targets, e), weight) == Sum(h, over)
  {
    if |h| > 0 {
      var n := |h| - 1;
      ServedSum(h[..n], targets, e, weight, over);
      SumSplitsLast(h, over);
      var c := Completion(h[n].status, h[n].elapsed, true);
      SumAppend(Served(h[..n], targets, e), c, weight);
      assert Served(h[..n], targets, e) + [] == Served(h[..n], targets, e);
    }
  }

  function StatusOn(targets: nat, e: nat, status: string): IssueOutcome -> nat
    requires targets > 0
  {
    (o: IssueOutcome) => if o.sequence % targets == e && o.status == status then 1 else 0
  }

  function LatencyOn(targets: nat, e: nat, us: nat): IssueOutcome -> nat
    requires targets > 0
  {
    (o: IssueOutcome) => if o.sequence % targets == e && o.status == "OK" && o.elapsed == us then 1 else 0
  }

  /** The requests of endpoint `e` answered with a status. */
  ghost function AnsweredAs(h: seq<IssueOutcome>, targets: nat, e: nat, status: string): set<int>
    requires targets > 0
  {
    set i | 0 <= i < |h| && h[i].sequence % targets == e && h[i].status == status
  }

  /** What an endpoint's statistics say of the outcomes: each status as often as it was answered there, and the
      times of exactly its OK answers. */
  lemma EndpointReads(h: seq<IssueOutcome>, targets: nat, e: nat, status: string, us: nat)
    requires targets > 0
    ensures var r := Reading(Served(h, targets, e));
      && Get(r.statuses, status) == |AnsweredAs(h, targets, e, status)|
      && multiset(r.latencies)[us]
           == |set i | 0 <= i < |h| && h[i].sequence % targets == e && h[i].status == "OK" && h[i].elapsed == us|
  {
    var served := Served(h, targets, e);
    TallyCounts(served, Any, status);
    RttsKeptCount(served, OkWithin, us);
    ServedSum(h, targets, e, KeptAs(Any, status), StatusOn(targets, e, status));
    ServedSum(h, targets, e, RttAs(OkWithin, us), LatencyOn(targets, e, us));
    hide Served, Tally, RttsKept, SumTo, Get;
    SumIs(h, StatusOn(targets, e, status), AnsweredAs(h, targets, e, status));
    SumIs(h, LatencyOn(targets, e, us),
          set i | 0 <= i < |h| && h[i].sequence % targets == e && h[i].status == "OK" && h[i].elapsed == us);
  }

  /** The shared statistics; `outcomes` is what actually happened, in completion order. */
  class RunStats {
    const targets: nat
    var endpoints: seq<EndpointStats>
    ghost var outcomes: seq<IssueOutcome>

    ghost predicate Valid()
      reads this
    {
      && targets > 0 && |endpoints| == targets
      && (forall e :: 0 <= e < targets ==> endpoints[e] == Reading(Served(outcomes, targets, e)))
    }

    constructor (targets: nat)
      requires targets > 0
      ensures Valid() && outcomes == [] && this.targets == targets
    {
      this.targets := targets;
      endpoints := seq(targets, _ => EndpointStats(0, map[], 0, []));
      outcomes := [];
      new;
      ReadNone();
      assert forall e :: 0 <= e < this.targets ==> Served(outcomes, this.targets, e) == [];
    }

    lemma Listed()
      requires Valid()
      ensures |endpoints| == targets
    {
    }

    lemma IsReading(e: nat)
      requires Valid() && e < targets
      ensures endpoints[e] == Reading(Served(outcomes, targets, e))
    {
    }

    lemma Reads(e: nat)
      requires Valid() && e < targets
      ensures endpoints[e].selected == Total(endpoints[e].statuses) == |Served(outcomes, targets, e)|
      ensures endpoints[e].successful == Get(endpoints[e].statuses, "OK") == |endpoints[e].latencies|
    {
      ServedWithin(outcomes, targets, e);
      ReadingAgrees(Served(outcomes, targets, e));
    }

    /** Books one answered request against its endpoint and no other. */
    method Record(sequence: nat, status: string, elapsed: nat)
      requires Valid()
      modifies this
      ensures Valid() && outcomes == old(outcomes) + [IssueOutcome(sequence, status, elapsed)]
    {
      hide Reading, Served;
      ghost var o := IssueOutcome(sequence, status, elapsed);
      ghost var c := Completion(status, elapsed, true);
      var endpoint := sequence % targets;
      var s := endpoints[endpoint];
      var updated := s.(selected := s.selected + 1, statuses := Bump(s.statuses, status));
      if status == "OK" {
        updated := updated.(successful := s.successful + 1, latencies := s.latencies + [elapsed]);
      }
      ReadOne(Served(outcomes, targets, endpoint), c);
      forall e | 0 <= e < targets
        ensures Served(outcomes + [o], targets, e) ==
          if endpoint == e then Served(outcomes, targets, e) + [c] else Served(outcomes, targets, e)
      {
        ServeOne(outcomes, o, targets, e);
      }
      endpoints := endpoints[endpoint := updated];
      outcomes := outcomes + [o];
    }
  }

  /** The driver with its counter, workers and statistics; each method is one atomic step of one worker. */
  class Driver {
    const total: nat
    const stats: RunStats
    var sequence: nat
    var workers: seq<Worker>
    ghost var issued: seq<nat>

    ghost function Snapshot(): State
      reads this, stats
    {
      State(sequence, workers, issued, Sequences(stats.outcomes))
    }

    constructor (total: nat, concurrency: nat, stats: RunStats)
      requires stats.outcomes == []
      ensures this.total == total && this.stats == stats && Snapshot() == Init(concurrency)
    {
      this.total, this.stats := total, stats;
      sequence, workers, issued := 0, seq(concurrency, _ => Ready), [];
    }

    method ClaimNext(w: nat) returns (current: nat)
      requires w < |workers| && workers[w].Ready?
      modifies this
      ensures current == old(sequence)
      ensures Snapshot() == Step(total, old(Snapshot()), Claim(w))
    {
      current := sequence;
      sequence := (sequence + 1) % WORD;
      if current >= total {
        workers := workers[w := Overrun];
      } else {
        workers, issued := workers[w := Issuing(current)], issued + [current];
      }
    }

    method Answered(w: nat, status: string, elapsed: nat)
      requires w < |workers| && workers[w].Issuing? && stats.Valid()
      modifies this, stats
      ensures stats.Valid() && stats.outcomes ==
        old(stats.outcomes) + [IssueOutcome(old(workers)[w].sequence, status, elapsed)]
      ensures Snapshot() == Step(total, old(Snapshot()), Finish(w))
    {
      var q := workers[w].sequence;
      stats.Record(q, status, elapsed);
      workers := workers[w := Ready];
      assert Sequences(stats.outcomes) == Sequences(old(stats.outcomes)) + [q];
    }
  }

  lemma EndpointShare(h: seq<IssueOutcome>, total: nat, targets: nat, e: nat)
    requires multiset(Sequences(h)) == multiset(UpTo(total)) && e < targets
    ensures |Served(h, targets, e)| == Share(total, targets, e)
  {
    hide Served, Share, UpTo, Sequences, Sum;
    ServedWithin(h, targets, e);
    SumPermuted(Sequences(h), UpTo(total), OnEndpoint(targets, e));
    ResidueCount(total, targets, e);
  }

  /** What one enabled step of the driver does to the claiming state. */
  lemma StepFacts(total: nat, s: State, a: Action)
    requires NoWrap(total, |s.workers|) && Inv(total, s) && Enabled(s, a) && !a.Stop?
    ensures var t := Step(total, s, a);
      && Inv(total, t) && |t.workers| == |s.workers| && Remaining(total, t) == Remaining(total, s) - 1
      && (forall w :: 0 <= w < |t.workers| && t.workers[w].Stopped? ==> s.workers[w].Stopped?)
  {
    hide InOrder, NothingLost, Remaining;
    StepKeepsOrder(total, s, a);
    StepKeepsKept(total, s, a);
    StepUsesOne(total, s, a);
  }

  lemma RemainingAtLeast(total: nat, s: State)
    requires Inv(total, s)
    ensures Remaining(total, s) >= 0
  {
  }

  /** Runs the workers under an arbitrary scheduler and arbitrary answers until all have run past the end.
      Every sequence below the total is answered exactly once, and each endpoint's statistics add up to
      its exact share. */
  method RunClosedLoop(total: nat, concurrency: nat, targets: nat) returns (stats: RunStats)
    requires NoWrap(total, concurrency) && concurrency > 0 && targets > 0
    ensures stats.Valid() && stats.targets == targets
    ensures multiset(Sequences(stats.outcomes)) == multiset(UpTo(total))
    ensures forall e :: 0 <= e < targets ==>
      && stats.endpoints[e].selected == Total(stats.endpoints[e].statuses) == Share(total, targets, e)
      && stats.endpoints[e].successful == Get(stats.endpoints[e].statuses, "OK") == |stats.endpoints[e].latencies|
    ensures forall e, s: string :: 0 <= e < targets ==>
              Get(stats.endpoints[e].statuses, s) == |AnsweredAs(stats.outcomes, targets, e, s)|
  {
    hide InOrder, NothingLost, Step, Reading, RunStats.Valid, Served, Share, Remaining;
    stats := new RunStats(targets);
    var driver := new Driver(total, concurrency, stats);
    InitHolds(total, concurrency);
    var running := true;
    while running
      invariant stats.Valid() && stats.targets == targets && driver.stats == stats && driver.total == total
      invariant |driver.workers| == concurrency && Inv(total, driver.Snapshot())
      invariant !running ==> forall w :: 0 <= w < concurrency ==> driver.workers[w].Overrun?
      invariant forall w :: 0 <= w < concurrency ==> !driver.workers[w].Stopped?
      decreases Remaining(total, driver.Snapshot()), running
    {
      RemainingAtLeast(total, driver.Snapshot());
      if w: nat :| w < concurrency && !driver.workers[w].Overrun? {
        ghost var before := driver.Snapshot();
        if driver.workers[w].Ready? {
          StepFacts(total, before, Claim(w));
          var _ := driver.ClaimNext(w);
        } else {
          var status: string, elapsed: nat := *, *;
          StepFacts(total, before, Finish(w));
          driver.Answered(w, status, elapsed);
        }
      } else {
        running := false;
      }
    }
    AllFinishedOnce(total, driver.Snapshot());
    stats.Listed();
    forall e | 0 <= e < targets
      ensures stats.endpoints[e].selected == Total(stats.endpoints[e].statuses) == Share(total, targets, e)
      ensures stats.endpoints[e].successful == Get(stats.endpoints[e].statuses, "OK") == |stats.endpoints[e].latencies|
    {
      EndpointShare(stats.outcomes, total, targets, e);
      stats.Reads(e);
    }
    forall e, s: string | 0 <= e < targets
      ensures Get(stats.endpoints[e].statuses, s) == |AnsweredAs(stats.outcomes, targets, e, s)|
    {
      stats.IsReading(e);
      EndpointReads(stats.outcomes, targets, e, s, 0);
    }
  }
}
