/** The horizontal campaign plan: which sequences every job may use, the validator of such plans, and why
    no generated context is ever sent twice. */
module SequencePlan {
  import opened Common
  import opened Sorting
  import opened Text
  import opened CorpusRows

  const NAMESPACE_START := 22_000_000_000
  const NAMESPACE_END := 23_000_000_000
  const CAMPAIGN_SPAN := 10_000_000
  const JOB_SEQUENCE_SPAN := 10_001
  const MAX_ROWS := 10_000
  const TOKEN_COUNT := 64
  const CELLS := 16

  // ----- intervals -----

  /** A half-open range of sequence numbers. */
  datatype Interval = Interval(start: int, end: int)

  predicate Apart(a: Interval, b: Interval) {
    !(a.start < b.end && b.start < a.end)
  }

  ghost predicate PairwiseApart(s: seq<Interval>) {
    forall i, j :: 0 <= i < j < |s| ==> Apart(s[i], s[j])
  }

  predicate IntervalLe(a: Interval, b: Interval) {
    a.start < b.start || (a.start == b.start && a.end <= b.end)
  }

  lemma IntervalLeTotal()
    ensures TotalOrder(IntervalLe)
  {
  }

  ghost predicate MembersApart(s: seq<Interval>) {
    forall a, b :: a in s && b in s && a != b ==> Apart(a, b)
  }

  /** Among non-empty intervals, no two positions overlap exactly when none repeats and members are apart:
      a property of the collection, not of its order. */
  lemma PairwiseByMembers(s: seq<Interval>)
    requires forall i :: 0 <= i < |s| ==> s[i].start < s[i].end
    ensures PairwiseApart(s) <==> |Collected(s)| == |s| && MembersApart(s)
  {
    DistinctCardinality(s);
    if PairwiseApart(s) {
      forall i, j | 0 <= i < j < |s| ensures s[i] != s[j] { assert Apart(s[i], s[j]); }
      forall a, b | a in s && b in s && a != b ensures Apart(a, b) {
        var i :| 0 <= i < |s| && s[i] == a;
        var j :| 0 <= j < |s| && s[j] == b;
        assert i < j ==> Apart(s[i], s[j]);
        assert j < i ==> Apart(s[j], s[i]);
      }
    } else if Distinct(s) {
      var i, j :| 0 <= i < j < |s| && !Apart(s[i], s[j]);
      assert s[i] in s && s[j] in s && s[i] != s[j];
    }
  }

  ghost predicate AdjacentInOrder(s: seq<Interval>) {
    forall i :: 0 <= i < |s| - 1 ==> s[i].end <= s[i + 1].start
  }

  lemma {:induction false} ChainInOrder(s: seq<Interval>, i: nat, j: nat)
    requires AdjacentInOrder(s) && (forall k :: 0 <= k < |s| ==> s[k].start < s[k].end)
    requires i < j < |s|
    ensures s[i].end <= s[j].start
  {
    if i < j - 1 {
      ChainInOrder(s, i, j - 1);
      assert s[j - 1].end <= s[j].start;
    }
  }

  /** Checking neighbours after sorting finds an overlap exactly when some two intervals overlap. */
  lemma SortedNeighboursSuffice(s: seq<Interval>)
    requires forall i :: 0 <= i < |s| ==> s[i].start < s[i].end
    ensures AdjacentInOrder(Sort(s, IntervalLe)) <==> PairwiseApart(s)
  {
    hide Sort, MembersApart;
    var t := Sort(s, IntervalLe);
    IntervalLeTotal();
    SortSorts(s, IntervalLe);
    SameMembers(s, t);
    forall i | 0 <= i < |t| ensures t[i].start < t[i].end {
      assert t[i] in t;
    }
    PairwiseByMembers(s);
    PairwiseByMembers(t);
    MembersApartAgree(s, t);
    if AdjacentInOrder(t) {
      forall i, j | 0 <= i < j < |t| ensures Apart(t[i], t[j]) { ChainInOrder(t, i, j); }
    }
    if PairwiseApart(t) {
      forall i | 0 <= i < |t| - 1 ensures t[i].end <= t[i + 1].start {
        assert Apart(t[i], t[i + 1]) && IntervalLe(t[i], t[i + 1]);
      }
    }
  }

  lemma SameMembers(s: seq<Interval>, t: seq<Interval>)
    requires multiset(s) == multiset(t)
    ensures |s| == |t| && Collected(s) == Collected(t) && forall x :: x in s <==> x in t
  {
    SameLength(s, t);
    forall x ensures x in s <==> x in t {
      assert x in s <==> x in multiset(s);
      assert x in t <==> x in multiset(t);
    }
  }

  lemma MembersApartAgree(s: seq<Interval>, t: seq<Interval>)
    requires forall x :: x in s <==> x in t
    ensures MembersApart(s) == MembersApart(t)
  {
  }

  // ----- cells -----

  datatype Phase = SentinelPre | Pre | Knee | Post | SentinelPost

  datatype Period = A | B

  /** One serial cell: the rate offered to each endpoint, or none. */
  datatype Cell = Cell(ordinal: nat, phase: Phase, rates: seq<Option<nat>>, block: Option<nat>, period: Option<Period>)

  /** The endpoints with a rate, ascending. */
  function Active(rates: seq<Option<nat>>, n: nat): (active: seq<nat>)
    requires n <= |rates|
    ensures |active| <= n && forall i :: 0 <= i < |active| ==> active[i] < n && rates[active[i]].Some?
    ensures forall i, j :: 0 <= i < j < |active| ==> active[i] < active[j]
  {
    if n == 0 then [] else
    Active(rates, n - 1) + (if rates[n - 1].Some? then [n - 1] else [])
  }

  function All(rate: nat, replicas: nat): seq<Option<nat>> { seq(replicas, _ => Some(rate)) }

  function OnlyZero(rate: nat, replicas: nat): seq<Option<nat>> {
    seq(replicas, e => if e == 0 then Some(rate) else None)
  }

  /** The first rate of a block: AB and BA alternate, and the parity of the campaign picks the fifth. */
  function FirstRate(block: nat, campaign: nat): nat {
    if block == 5 then (if campaign % 2 == 0 then 41 else 42) else if block % 2 == 1 then 41 else 42
  }

  /** Cell `i` of the frozen order. */
  function ExpectedCell(i: nat, replicas: nat, campaign: nat): Cell
    requires i < CELLS
  {
    if i == 0 then Cell(0, SentinelPre, OnlyZero(41, replicas), None, None)
    else if i == 1 then Cell(1, SentinelPre, OnlyZero(42, replicas), None, None)
    else if i == 2 then Cell(2, Pre, All(35, replicas), None, None)
    else if i == 13 then Cell(13, Post, All(35, replicas), None, None)
    else if i == 14 then Cell(14, SentinelPost, OnlyZero(42, replicas), None, None)
    else if i == 15 then Cell(15, SentinelPost, OnlyZero(41, replicas), None, None)
    else
      var block := (i - 1) / 2;
      var first := FirstRate(block, campaign);
      if i % 2 == 1 then Cell(i, Knee, All(first, replicas), Some(block), Some(A))
      else Cell(i, Knee, All(83 - first, replicas), Some(block), Some(B))
  }

  function ExpectedCells(replicas: nat, campaign: nat): (cells: seq<Cell>)
    ensures |cells| == CELLS
  {
    seq(CELLS, i requires 0 <= i < CELLS => ExpectedCell(i, replicas, campaign))
  }

  /** The rates of the sixteen cells of an even campaign: sentinels, the low reference, five pairs of knee cells,
      and back. */
  const EVEN_ORDER: seq<nat> := [41, 42, 35, 41, 42, 42, 41, 41, 42, 42, 41, 41, 42, 35, 42, 41]

  /** An odd campaign only turns its fifth pair around. */
  const ODD_ORDER: seq<nat> := [41, 42, 35, 41, 42, 42, 41, 41, 42, 42, 41, 42, 41, 35, 42, 41]

  /** Cell by cell: the phase, the block and period, and the rate, offered to every endpoint, or only to the
      first in the sentinel cells. */
  lemma FrozenOrder(i: nat, replicas: nat, campaign: nat)
    requires i < CELLS
    ensures var cell := ExpectedCell(i, replicas, campaign);
      && cell.ordinal == i && |cell.rates| == replicas
      && cell.phase == (if i < 2 then SentinelPre else if i == 2 then Pre else if i < 13 then Knee
                        else if i == 13 then Post else SentinelPost)
      && (cell.phase == Knee ==> 3 <= i <= 12 && cell.block == Some((i - 1) / 2)
                                 && cell.period == Some(if i % 2 == 1 then A else B))
      && (cell.phase != Knee ==> cell.block == None && cell.period == None)
      && (forall e :: 0 <= e < replicas ==>
            cell.rates[e] == if (i < 2 || i > 13) && e > 0 then None
                             else Some((if campaign % 2 == 0 then EVEN_ORDER else ODD_ORDER)[i]))
  {
    OrderAt(i, campaign);
  }

  lemma OrderAt(i: nat, campaign: nat)
    requires i < CELLS
    ensures var rate := (if campaign % 2 == 0 then EVEN_ORDER else ODD_ORDER)[i];
      && (3 <= i <= 12 ==> rate == if i % 2 == 1 then FirstRate((i - 1) / 2, campaign)
                                   else 83 - FirstRate((i - 1) / 2, campaign))
      && (i == 0 || i == 15 ==> rate == 41) && (i == 1 || i == 14 ==> rate == 42) && (i == 2 || i == 13 ==> rate == 35)
  {
    assert i == 0 || i == 1 || i == 2 || i == 3 || i == 4 || i == 5 || i == 6 || i == 7 || i == 8 || i == 9 || i == 10
        || i == 11 || i == 12 || i == 13 || i == 14 || i == 15;
  }

  predicate AllowedRung(replicas: nat) { replicas == 20 || replicas == 30 || replicas == 40 || replicas == 50 }

  method BuildCells(replicas: nat, campaign: nat) returns (r: Option<seq<Cell>>)
    ensures r.Some? <==> AllowedRung(replicas)
    ensures r.Some? ==> r.value == ExpectedCells(replicas, campaign)
  {
    if !AllowedRung(replicas) || replicas % 2 != 0 { return None; }
    var onlyZero: seq<Option<nat>> := seq(replicas, _ => None);
    onlyZero := onlyZero[0 := Some(41)];
    assert onlyZero == OnlyZero(41, replicas);
    var cells := [Cell(0, SentinelPre, onlyZero, None, None)];
    onlyZero := onlyZero[0 := Some(42)];
    assert onlyZero == OnlyZero(42, replicas);
    cells := cells + [Cell(1, SentinelPre, onlyZero, None, None)];
    cells := cells + [Cell(2, Pre, seq(replicas, _ => Some(35)), None, None)];
    var orders := [(41, 42), (42, 41), (41, 42), (42, 41), if campaign % 2 == 0 then (41, 42) else (42, 41)];
    var ordinal := 3;
    hide All, OnlyZero;
    for block := 1 to 6
      invariant ordinal == 2 * block + 1 == |cells|
      invariant forall i :: 0 <= i < |cells| ==> cells[i] == ExpectedCell(i, replicas, campaign)
    {
      var (a, b) := orders[block - 1];
      SameRates(a, replicas);
      SameRates(b, replicas);
      cells := cells + [Cell(ordinal, Knee, seq(replicas, _ => Some(a)), Some(block), Some(A))];
      ordinal := ordinal + 1;
      cells := cells + [Cell(ordinal, Knee, seq(replicas, _ => Some(b)), Some(block), Some(B))];
      ordinal := ordinal + 1;
    }
    SameRates(35, replicas);
    cells := cells + [Cell(13, Post, seq(replicas, _ => Some(35)), None, None)];
    onlyZero := onlyZero[0 := Some(42)];
    assert onlyZero == OnlyZero(42, replicas);
    cells := cells + [Cell(14, SentinelPost, onlyZero, None, None)];
    Restore(onlyZero, replicas);
    onlyZero := onlyZero[0 := Some(41)];
    cells := cells + [Cell(15, SentinelPost, onlyZero, None, None)];
    return Some(cells);
  }

  lemma SameRates(rate: nat, replicas: nat)
    ensures seq(replicas, _ => Some(rate)) == All(rate, replicas)
  {
  }

  lemma Restore(rates: seq<Option<nat>>, replicas: nat)
    requires replicas > 0 && rates == OnlyZero(42, replicas)
    ensures rates[0 := Some(41)] == OnlyZero(41, replicas)
  {
  }

  lemma {:induction false} ActiveAll(rate: nat, replicas: nat, n: nat)
    requires n <= replicas
    ensures Active(All(rate, replicas), n) == seq(n, e => e)
  {
    if n > 0 {
      ActiveAll(rate, replicas, n - 1);
      assert seq(n, (e: int) => e) == seq(n - 1, (e: int) => e) + [n - 1];
    }
  }

  lemma {:induction false} ActiveOnlyZero(rate: nat, replicas: nat, n: nat)
    requires 0 < n <= replicas
    ensures Active(OnlyZero(rate, replicas), n) == [0]
  {
    if n > 1 {
      ActiveOnlyZero(rate, replicas, n - 1);
    } else {
      assert Active(OnlyZero(rate, replicas), 0) == [];
    }
  }

  function JobsIn(cell: Cell): nat { |Active(cell.rates, |cell.rates|)| }

  lemma CellJobs(i: nat, replicas: nat, campaign: nat)
    requires i < CELLS && replicas > 0
    ensures |ExpectedCell(i, replicas, campaign).rates| == replicas
    ensures JobsIn(ExpectedCell(i, replicas, campaign)) == if i < 2 || i > 13 then 1 else replicas
  {
    if i < 2 || i > 13 {
      ActiveOnlyZero(if i == 0 || i == 15 then 41 else 42, replicas, replicas);
    } else if i == 2 || i == 13 {
      ActiveAll(35, replicas, replicas);
    } else {
      var first := FirstRate((i - 1) / 2, campaign);
      ActiveAll(first, replicas, replicas);
      ActiveAll(83 - first, replicas, replicas);
    }
  }

  function JobsBefore(replicas: nat, n: nat): nat {
    if n <= 2 then n else if n <= 14 then 2 + (n - 2) * replicas else 2 + 12 * replicas + (n - 14)
  }

  lemma NextJobs(replicas: nat, n: nat)
    requires n < CELLS
    ensures JobsBefore(replicas, n + 1) == JobsBefore(replicas, n) + if n < 2 || n > 13 then 1 else replicas
  {
  }

  lemma {:induction false} JobCount(replicas: nat, campaign: nat, n: nat)
    requires n <= CELLS && replicas > 0
    ensures SumTo(ExpectedCells(replicas, campaign), n, JobsIn) == JobsBefore(replicas, n)
  {
    hide ExpectedCell, JobsIn, JobsBefore;
    if n > 0 {
      JobCount(replicas, campaign, n - 1);
      CellJobs(n - 1, replicas, campaign);
      NextJobs(replicas, n - 1);
    } else {
      assert JobsBefore(replicas, 0) == 0 by { NoJobs(replicas); }
    }
  }

  lemma NoJobs(replicas: nat)
    ensures JobsBefore(replicas, 0) == 0
  {
  }

  // ----- jobs -----

  datatype Job = Job(
    allocation: nat, jobId: string, cell: nat, endpoint: nat, rate: nat, slots: nat, base: int, end: int, rows: nat)

  datatype Entry = Entry(jobId: string, interval: Interval)

  /** The fixed fields of a plan that its validator compares, one by one. */
  datatype Shape = Shape(
    schemaVersion: int, protocol: string, batchIncrement: int, stabilitySeconds: int, cellsSerial: bool,
    noExecDuringPlateau: bool, warmupRequests: int, connectionsPerJob: int, inferenceWorkers: string,
    rayonThreads: string, candleThreads: string, qosClass: string, cpu: (string, string), memory: (string, string))

  const FROZEN_SHAPE := Shape(1, "unchanged_sc_horizontal_scale_knee_v1", 2, 120, true, true, 0, 1, "1", "1", "unset",
                              "Guaranteed", ("2", "2"), ("4Gi", "4Gi"))

  /** What the corpus and the images are; `pinned` lists the image, source, model and tokenizer digests. */
  datatype Identity = Identity(tokenCount: int, corpusMode: string, generatorScheme: string, pinned: seq<string>)

  const PINNED: seq<string> := [
    "sha256:04323612ce3f73873b4c3ed6e09264e828241537e2c1a4231b43f32e9744d5aa",
    "image-registry.openshift-image-registry.svc:5000/llm-d-sc-gremlins/llm-d-sc-benchmark-driver-armed-51541f00e5fa"
    + "@sha256:ef0f32ad3a7a29f4cd1f68ae8b8cfbc1bf36d66a173df8f68fd531db9d762aae",
    "51541f00e5fa6e1918b4e57b9bfa432337345b1854b7289c836c3752543929d9",
    "7914abbd152278879b4c3235d188e3006753bb778b7de6266fbcbe4c4ba2ef2f",
    VERIFIED_TOKENIZER_SHA256]

  const GENERATOR_SCHEME := "alpha_bravo_lsb_identity_service_fill_v1"

  datatype Plan = Plan(
    shape: Shape, identity: Identity, replicas: nat, cells: seq<Cell>, reservation: Interval, jobs: seq<Job>)

  datatype Ledger = Ledger(claimed: bool, identity: Identity, reservation: Interval, entries: seq<Entry>)

  datatype PlanError = BadRunId | LongRunId | CampaignOutside | BadRung | ReservationExceeded

  predicate DnsChar(c: char) { 'a' <= c <= 'z' || '0' <= c <= '9' || c == '-' }

  predicate DnsLabel(s: string) {
    && |s| > 0 && s[0] != '-' && s[|s| - 1] != '-'
    && forall i :: 0 <= i < |s| ==> DnsChar(s[i])
  }

  function Reservation(campaign: nat): Interval {
    var start := NAMESPACE_START + campaign * CAMPAIGN_SPAN;
    Interval(start, start + CAMPAIGN_SPAN)
  }

  function JobId(runId: string, cell: nat, endpoint: nat): string {
    "sso-" + runId + "-c" + Padded(cell, 2) + "-e" + Padded(endpoint, 2)
  }

  /** The cells and endpoints in allocation order. */
  function Slots(cells: seq<Cell>, n: nat): seq<(nat, nat)>
    requires n <= |cells|
  {
    if n == 0 then [] else Slots(cells, n - 1) + CellSlots(cells, n - 1, JobsIn(cells[n - 1]))
  }

  function CellSlots(cells: seq<Cell>, c: nat, k: nat): (slots: seq<(nat, nat)>)
    requires c < |cells| && k <= JobsIn(cells[c])
    ensures |slots| == k
  {
    var active := Active(cells[c].rates, |cells[c].rates|);
    seq(k, j requires 0 <= j < k => (c, active[j]))
  }

  ghost predicate SlotsIn(cells: seq<Cell>, slots: seq<(nat, nat)>) {
    forall k :: 0 <= k < |slots| ==>
      && slots[k].0 < |cells| && slots[k].1 < |cells[slots[k].0].rates|
      && cells[slots[k].0].rates[slots[k].1].Some?
  }

  predicate Earlier(a: (nat, nat), b: (nat, nat)) {
    a.0 < b.0 || (a.0 == b.0 && a.1 < b.1)
  }

  ghost predicate Ascending(slots: seq<(nat, nat)>) {
    forall i, j :: 0 <= i < j < |slots| ==> Earlier(slots[i], slots[j])
  }

  lemma {:induction false} SlotFacts(cells: seq<Cell>, n: nat)
    requires n <= |cells|
    ensures |Slots(cells, n)| == SumTo(cells, n, JobsIn)
    ensures SlotsIn(cells, Slots(cells, n)) && Ascending(Slots(cells, n))
    ensures forall k :: 0 <= k < |Slots(cells, n)| ==> Slots(cells, n)[k].0 < n
  {
    if n > 0 {
      SlotFacts(cells, n - 1);
      var before, added := Slots(cells, n - 1), CellSlots(cells, n - 1, JobsIn(cells[n - 1]));
      assert SlotsIn(cells, added) && Ascending(added);
    }
  }

  lemma {:induction false} ActiveListed(rates: seq<Option<nat>>, n: nat, e: nat)
    requires e < n <= |rates| && rates[e].Some?
    ensures e in Active(rates, n)
  {
    if e < n - 1 { ActiveListed(rates, n - 1, e); }
  }

  /** Every endpoint with a rate has its slot. */
  lemma {:induction false} SlotListed(cells: seq<Cell>, n: nat, c: nat, e: nat)
    requires c < n <= |cells| && e < |cells[c].rates| && cells[c].rates[e].Some?
    ensures (c, e) in Slots(cells, n)
  {
    if c < n - 1 {
      SlotListed(cells, n - 1, c, e);
    } else {
      var active := Active(cells[c].rates, |cells[c].rates|);
      ActiveListed(cells[c].rates, |cells[c].rates|, e);
      var j :| 0 <= j < |active| && active[j] == e;
      assert CellSlots(cells, c, JobsIn(cells[c]))[j] == (c, e);
    }
  }

  function MakeJob(runId: string, campaign: nat, cells: seq<Cell>, k: nat, slot: (nat, nat)): Job
    requires SlotsIn(cells, [slot])
  {
    assert [slot][0] == slot;
    var rate := cells[slot.0].rates[slot.1].value;
    var base := Reservation(campaign).start + k * JOB_SEQUENCE_SPAN;
    Job(k, JobId(runId, slot.0, slot.1), slot.0, slot.1, rate, rate * 180, base, base + JOB_SEQUENCE_SPAN, MAX_ROWS)
  }

  lemma OneSlot(cells: seq<Cell>, slots: seq<(nat, nat)>, k: nat)
    requires SlotsIn(cells, slots) && k < |slots|
    ensures SlotsIn(cells, [slots[k]])
  {
  }

  function Jobs(runId: string, campaign: nat, cells: seq<Cell>, slots: seq<(nat, nat)>): (jobs: seq<Job>)
    requires SlotsIn(cells, slots)
    ensures |jobs| == |slots|
  {
    if |slots| == 0 then [] else
    var k := |slots| - 1;
    OneSlot(cells, slots, k);
    Jobs(runId, campaign, cells, slots[..k]) + [MakeJob(runId, campaign, cells, k, slots[k])]
  }

  lemma {:induction false} JobAt(runId: string, campaign: nat, cells: seq<Cell>, slots: seq<(nat, nat)>, k: nat)
    requires SlotsIn(cells, slots) && k < |slots|
    ensures SlotsIn(cells, [slots[k]])
    ensures Jobs(runId, campaign, cells, slots)[k] == MakeJob(runId, campaign, cells, k, slots[k])
  {
    OneSlot(cells, slots, k);
    if k < |slots| - 1 {
      JobAt(runId, campaign, cells, slots[..|slots| - 1], k);
    }
  }

  function EntryOf(job: Job): Entry { Entry(job.jobId, Interval(job.base, job.end)) }

  function Entries(jobs: seq<Job>): (entries: seq<Entry>)
    ensures |entries| == |jobs|
  {
    seq(|jobs|, k requires 0 <= k < |jobs| => EntryOf(jobs[k]))
  }

  /** The plan of a campaign, read off its parameters. */
  function PlanOf(runId: string, campaign: nat, replicas: nat): Plan {
    var cells := ExpectedCells(replicas, campaign);
    SlotFacts(cells, CELLS);
    Plan(FROZEN_SHAPE, Identity(TOKEN_COUNT, "generated", GENERATOR_SCHEME, PINNED), replicas, cells,
         Reservation(campaign), Jobs(runId, campaign, cells, Slots(cells, CELLS)))
  }

  function LedgerOf(plan: Plan): Ledger {
    Ledger(true, plan.identity, plan.reservation, Entries(plan.jobs))
  }

  predicate AllowedPlan(runId: string, campaign: int, replicas: nat) {
    DnsLabel(runId) && |runId| <= 38 && 0 <= campaign < 100 && AllowedRung(replicas)
  }

  /** Lower-case letters, digits and inner hyphens, up to 38; a campaign index of two digits; a tested rung. */
  lemma AllowedExactly(runId: string, campaign: int, replicas: nat)
    ensures AllowedPlan(runId, campaign, replicas) <==>
      && 1 <= |runId| <= 38 && 0 <= campaign <= 99 && replicas % 10 == 0 && 20 <= replicas <= 50
      && forall i :: 0 <= i < |runId| ==>
           'a' <= runId[i] <= 'z' || '0' <= runId[i] <= '9' || (runId[i] == '-' && 0 < i < |runId| - 1)
  {
  }

  lemma ReservationFits(replicas: nat, n: nat, campaign: nat, k: nat)
    requires AllowedRung(replicas) && k <= SumTo(ExpectedCells(replicas, campaign), CELLS, JobsIn)
    ensures k <= 604 && k * JOB_SEQUENCE_SPAN <= CAMPAIGN_SPAN
  {
    hide ExpectedCells;
    JobCount(replicas, campaign, CELLS);
    MulLe(k, 604, JOB_SEQUENCE_SPAN);
  }

  lemma {:induction false} CountsGrow(cells: seq<Cell>, n: nat, m: nat)
    requires n <= m <= |cells|
    ensures SumTo(cells, n, JobsIn) <= SumTo(cells, m, JobsIn)
  {
    if n < m { CountsGrow(cells, n, m - 1); }
  }

  lemma SlotsStep(cells: seq<Cell>, c: nat, j: nat)
    requires c < |cells| && j < JobsIn(cells[c])
    ensures CellSlots(cells, c, j + 1) == CellSlots(cells, c, j) + [(c, Active(cells[c].rates, |cells[c].rates|)[j])]
  {
  }

  lemma SlotsOf(cells: seq<Cell>, c: nat, j: nat)
    requires c < |cells| && j <= JobsIn(cells[c])
    ensures SlotsIn(cells, Slots(cells, c) + CellSlots(cells, c, j))
    ensures |Slots(cells, c) + CellSlots(cells, c, j)| == SumTo(cells, c, JobsIn) + j
  {
    SlotFacts(cells, c);
  }

  lemma JobsExtend(runId: string, campaign: nat, cells: seq<Cell>, slots: seq<(nat, nat)>, slot: (nat, nat))
    requires SlotsIn(cells, slots + [slot])
    ensures SlotsIn(cells, slots) && SlotsIn(cells, [slot])
    ensures Jobs(runId, campaign, cells, slots + [slot]) ==
            Jobs(runId, campaign, cells, slots) + [MakeJob(runId, campaign, cells, |slots|, slot)]
  {
    var all := slots + [slot];
    assert all[..|slots|] == slots && all[|slots|] == slot;
    OneSlot(cells, all, |slots|);
    forall k | 0 <= k < |slots|
      ensures slots[k].0 < |cells| && slots[k].1 < |cells[slots[k].0].rates|
      ensures cells[slots[k].0].rates[slots[k].1].Some?
    {
      assert all[k] == slots[k];
    }
  }

  /** Builds plan and ledger; accepts exactly the allowed parameters, so an allocation never exceeds its
      reservation. */
  method BuildPlan(runId: string, campaign: int, replicas: nat)
    returns (r: Result<(Plan, Ledger), PlanError>)
    ensures r.Ok? <==> AllowedPlan(runId, campaign, replicas)
    ensures r.Ok? ==> var plan := PlanOf(runId, campaign, replicas); r.value == (plan, LedgerOf(plan))
    ensures r.Err? ==> r.error == if !DnsLabel(runId) then BadRunId else if |runId| > 38 then LongRunId
                                  else if !(0 <= campaign < 100) then CampaignOutside else BadRung
  {
    hide DnsLabel, Active, MakeJob, Jobs, Slots, CellSlots, SlotsIn, ExpectedCells, JobsIn;
    if !DnsLabel(runId) { return Err(BadRunId); }
    if |runId| > 38 { return Err(LongRunId); }
    if !(0 <= campaign < (NAMESPACE_END - NAMESPACE_START) / CAMPAIGN_SPAN) { return Err(CampaignOutside); }
    var built := BuildCells(replicas, campaign);
    if built.None? { return Err(BadRung); }
    var cells := built.value;
    var reservation := Interval(NAMESPACE_START + campaign * CAMPAIGN_SPAN,
                                NAMESPACE_START + campaign * CAMPAIGN_SPAN + CAMPAIGN_SPAN);
    var allocation := 0;
    var jobs: seq<Job>, entries: seq<Entry> := [], [];
    SlotFacts(cells, 0);
    NoSlots(cells);
    NoJobsYet(runId, campaign, cells);
    for c := 0 to |cells|
      invariant SlotsIn(cells, Slots(cells, c)) && jobs == Jobs(runId, campaign, cells, Slots(cells, c))
      invariant allocation == |jobs| == SumTo(cells, c, JobsIn) && entries == Entries(jobs)
    {
      var active := Active(cells[c].rates, |cells[c].rates|);
      CountIs(cells[c]);
      CellStarts(cells, c);
      for j := 0 to |active|
        invariant SlotsIn(cells, Slots(cells, c) + CellSlots(cells, c, j))
        invariant jobs == Jobs(runId, campaign, cells, Slots(cells, c) + CellSlots(cells, c, j))
        invariant allocation == |jobs| == SumTo(cells, c, JobsIn) + j && entries == Entries(jobs)
      {
        var endpoint := active[j];
        ghost var slots := Slots(cells, c) + CellSlots(cells, c, j);
        SlotsStep(cells, c, j);
        SlotsOf(cells, c, j + 1);
        assert slots + [(c, endpoint)] == Slots(cells, c) + CellSlots(cells, c, j + 1);
        JobsExtend(runId, campaign, cells, slots, (c, endpoint));
        CountsGrow(cells, c + 1, |cells|);
        ReservationFits(replicas, c, campaign, allocation + 1);
        Endpoint(cells, c, endpoint);
        var rate := cells[c].rates[endpoint].value;
        var base := reservation.start + allocation * JOB_SEQUENCE_SPAN;
        var end := base + JOB_SEQUENCE_SPAN;
        if end > reservation.end { return Err(ReservationExceeded); }
        var job := Job(allocation, JobId(runId, c, endpoint), c, endpoint, rate, rate * 180, base, end, MAX_ROWS);
        Made(runId, campaign, cells, allocation, (c, endpoint));
        jobs, entries := jobs + [job], entries + [Entry(job.jobId, Interval(base, end))];
        allocation := allocation + 1;
      }
      CellEnds(cells, c);
    }
    var identity := Identity(TOKEN_COUNT, "generated", GENERATOR_SCHEME, PINNED);
    return Ok((Plan(FROZEN_SHAPE, identity, replicas, cells, reservation, jobs),
               Ledger(true, identity, reservation, entries)));
  }

  lemma NoSlots(cells: seq<Cell>)
    ensures Slots(cells, 0) == []
  {
  }

  lemma NoJobsYet(runId: string, campaign: nat, cells: seq<Cell>)
    ensures SlotsIn(cells, []) && Jobs(runId, campaign, cells, []) == []
  {
  }

  lemma CountIs(cell: Cell)
    ensures JobsIn(cell) == |Active(cell.rates, |cell.rates|)|
  {
  }

  lemma CellStarts(cells: seq<Cell>, c: nat)
    requires c < |cells|
    ensures Slots(cells, c) + CellSlots(cells, c, 0) == Slots(cells, c)
  {
  }

  lemma CellEnds(cells: seq<Cell>, c: nat)
    requires c < |cells|
    ensures Slots(cells, c) + CellSlots(cells, c, JobsIn(cells[c])) == Slots(cells, c + 1)
    ensures SumTo(cells, c + 1, JobsIn) == SumTo(cells, c, JobsIn) + JobsIn(cells[c])
  {
  }

  lemma Endpoint(cells: seq<Cell>, c: nat, e: nat)
    requires SlotsIn(cells, [(c, e)])
    ensures c < |cells| && e < |cells[c].rates| && cells[c].rates[e].Some?
  {
    assert [(c, e)][0] == (c, e);
  }

  lemma Made(runId: string, campaign: nat, cells: seq<Cell>, k: nat, slot: (nat, nat))
    requires SlotsIn(cells, [slot])
    ensures slot.0 < |cells| && slot.1 < |cells[slot.0].rates| && cells[slot.0].rates[slot.1].Some?
    ensures var rate := cells[slot.0].rates[slot.1].value;
      var base := Reservation(campaign).start + k * JOB_SEQUENCE_SPAN;
      MakeJob(runId, campaign, cells, k, slot)
        == Job(k, JobId(runId, slot.0, slot.1), slot.0, slot.1, rate, rate * 180, base, base + JOB_SEQUENCE_SPAN,
               MAX_ROWS)
  {
    Endpoint(cells, slot.0, slot.1);
  }
}
