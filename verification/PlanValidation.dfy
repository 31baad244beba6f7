/** The validator of campaign plans and the registry of reservations: what they accept, and that built
    plans pass and never send one context twice. */
module PlanValidation {
  import opened Common
  import opened Sorting
  import opened Text
  import opened CorpusRows
  import opened SequencePlan

  // ----- what the validator accepts -----

  function KneeCells(cells: seq<Cell>, n: nat): seq<Cell>
    requires n <= |cells|
  {
    if n == 0 then [] else KneeCells(cells, n - 1) + (if cells[n - 1].phase.Knee? then [cells[n - 1]] else [])
  }

  function OfBlock(cells: seq<Cell>, block: nat, n: nat): seq<Cell>
    requires n <= |cells|
  {
    if n == 0 then [] else
    OfBlock(cells, block, n - 1)
    + (if cells[n - 1].phase.Knee? && cells[n - 1].block == Some(block) then [cells[n - 1]] else [])
  }

  /** Every endpoint of the cell is active, at this one rate. */
  predicate PureRate(cell: Cell, replicas: nat, rate: nat) {
    JobsIn(cell) == replicas && forall e :: 0 <= e < |cell.rates| ==> cell.rates[e].None? || cell.rates[e].value == rate
  }

  /** A block is one pure 41 cell and one pure 42 cell, in periods A and B in either order. */
  ghost predicate BlockPasses(cells: seq<Cell>, block: nat, replicas: nat) {
    var pair := OfBlock(cells, block, |cells|);
    && |pair| == 2 && {pair[0].period, pair[1].period} == {Some(A), Some(B)}
    && (  (PureRate(pair[0], replicas, 41) && PureRate(pair[1], replicas, 42))
       || (PureRate(pair[0], replicas, 42) && PureRate(pair[1], replicas, 41)))
  }

  ghost predicate CellsPass(plan: Plan) {
    && AllowedRung(plan.replicas) && |plan.cells| == CELLS && |KneeCells(plan.cells, |plan.cells|)| == 10
    && forall block :: 1 <= block <= 5 ==> BlockPasses(plan.cells, block, plan.replicas)
  }

  function Ids(jobs: seq<Job>): (ids: seq<string>)
    ensures |ids| == |jobs|
  {
    seq(|jobs|, k requires 0 <= k < |jobs| => jobs[k].jobId)
  }

  function Intervals(jobs: seq<Job>): (intervals: seq<Interval>)
    ensures |intervals| == |jobs|
  {
    seq(|jobs|, k requires 0 <= k < |jobs| => Interval(jobs[k].base, jobs[k].end))
  }

  /** The entry a lookup by id finds: the last one listed. */
  function LastEntry(entries: seq<Entry>, n: nat, id: string): Option<Entry>
    requires n <= |entries|
  {
    if n == 0 then None else if entries[n - 1].jobId == id then Some(entries[n - 1]) else LastEntry(entries, n - 1, id)
  }

  ghost predicate JobPasses(plan: Plan, entries: seq<Entry>, job: Job) {
    var entry := LastEntry(entries, |entries|, job.jobId);
    && entry.Some? && entry.value.interval == Interval(job.base, job.end)
    && job.end - job.base == JOB_SEQUENCE_SPAN
    && plan.reservation.start <= job.base && job.end <= plan.reservation.end
  }

  /** Exactly the plans accepted; in particular no two jobs share a sequence. */
  ghost predicate ValidPlan(plan: Plan, ledger: Ledger) {
    && plan.shape == FROZEN_SHAPE && plan.identity.tokenCount == TOKEN_COUNT && plan.identity.corpusMode == "generated"
    && plan.identity.generatorScheme == GENERATOR_SCHEME && ledger.identity == plan.identity
    && CellsPass(plan)
    && plan.reservation.start >= NAMESPACE_START && plan.reservation.end <= NAMESPACE_END
    && ledger.claimed && ledger.reservation == plan.reservation
    && |plan.jobs| == |ledger.entries| && Distinct(Ids(plan.jobs))
    && (forall k :: 0 <= k < |plan.jobs| ==> JobPasses(plan, ledger.entries, plan.jobs[k]))
    && PairwiseApart(Intervals(plan.jobs))
  }

  // ----- the validator -----

  method ActiveRates(cell: Cell) returns (rates: seq<nat>)
    ensures |rates| == JobsIn(cell)
    ensures forall rate :: rate in rates <==> exists e :: 0 <= e < |cell.rates| && cell.rates[e] == Some(rate)
  {
    rates := [];
    for e := 0 to |cell.rates|
      invariant |rates| == |Active(cell.rates, e)|
      invariant forall rate :: rate in rates <==> exists d :: 0 <= d < e && cell.rates[d] == Some(rate)
    {
      if cell.rates[e].Some? { rates := rates + [cell.rates[e].value]; }
    }
  }

  /** The rate of a cell active everywhere at one rate. */
  method OnlyRate(cell: Cell, replicas: nat) returns (r: Option<nat>)
    requires replicas > 0
    ensures forall rate: nat :: r == Some(rate) <==> PureRate(cell, replicas, rate)
  {
    var rates := ActiveRates(cell);
    if |rates| != replicas { return None; }
    assert rates[0] in rates;
    if e :| 0 <= e < |rates| && rates[e] != rates[0] {
      assert rates[e] in rates;
      return None;
    }
    assert forall rate :: rate in rates ==> rate == rates[0];
    return Some(rates[0]);
  }

  method CheckBlock(cells: seq<Cell>, block: nat, replicas: nat) returns (ok: bool)
    requires replicas > 0
    ensures ok <==> BlockPasses(cells, block, replicas)
  {
    hide PureRate;
    var pair := OfBlock(cells, block, |cells|);
    if |pair| != 2 || {pair[0].period, pair[1].period} != {Some(A), Some(B)} { return false; }
    var first := OnlyRate(pair[0], replicas);
    var second := OnlyRate(pair[1], replicas);
    if first.None? || second.None? { return false; }
    return {first.value, second.value} == {41, 42};
  }

  method IndexEntries(entries: seq<Entry>) returns (byJob: map<string, Entry>)
    ensures forall id :: LastEntry(entries, |entries|, id) == if id in byJob then Some(byJob[id]) else None
  {
    byJob := map[];
    for n := 0 to |entries|
      invariant forall id :: LastEntry(entries, n, id) == if id in byJob then Some(byJob[id]) else None
    {
      byJob := byJob[entries[n].jobId := entries[n]];
    }
  }

  method CheckJobs(plan: Plan, entries: seq<Entry>) returns (intervals: Option<seq<Interval>>)
    ensures intervals.Some? <==> forall k :: 0 <= k < |plan.jobs| ==> JobPasses(plan, entries, plan.jobs[k])
    ensures intervals.Some? ==> intervals.value == Intervals(plan.jobs)
  {
    var byJob := IndexEntries(entries);
    hide LastEntry;
    var found: seq<Interval> := [];
    for k := 0 to |plan.jobs|
      invariant forall j :: 0 <= j < k ==> JobPasses(plan, entries, plan.jobs[j])
      invariant found == Intervals(plan.jobs)[..k]
    {
      var job := plan.jobs[k];
      assert LastEntry(entries, |entries|, job.jobId) == if job.jobId in byJob then Some(byJob[job.jobId]) else None;
      if job.jobId !in byJob { return None; }
      var interval := byJob[job.jobId].interval;
      if interval.start != job.base || interval.end != job.end { return None; }
      if interval.end - interval.start != JOB_SEQUENCE_SPAN { return None; }
      if !(plan.reservation.start <= interval.start < interval.end <= plan.reservation.end) { return None; }
      found := found + [interval];
    }
    return Some(found);
  }

  method CheckNeighbours(intervals: seq<Interval>) returns (ok: bool)
    requires forall i :: 0 <= i < |intervals| ==> intervals[i].start < intervals[i].end
    ensures ok <==> PairwiseApart(intervals)
  {
    hide Sort, PairwiseApart;
    SortedNeighboursSuffice(intervals);
    var sorted := Sort(intervals, IntervalLe);
    var i := 0;
    while i + 1 < |sorted|
      invariant 0 <= i
      invariant forall k :: 0 <= k < i && k < |sorted| - 1 ==> sorted[k].end <= sorted[k + 1].start
    {
      if sorted[i].end > sorted[i + 1].start { return false; }
      i := i + 1;
    }
    return true;
  }

  method ValidatePlan(plan: Plan, ledger: Ledger) returns (ok: bool)
    ensures ok <==> ValidPlan(plan, ledger)
  {
    hide BlockPasses, PairwiseApart, JobPasses;
    if plan.shape != FROZEN_SHAPE { return false; }
    if plan.identity.tokenCount != TOKEN_COUNT || plan.identity.corpusMode != "generated" { return false; }
    if plan.identity.generatorScheme != GENERATOR_SCHEME || ledger.identity != plan.identity { return false; }
    if !AllowedRung(plan.replicas) || |plan.cells| != CELLS { return false; }
    if |KneeCells(plan.cells, |plan.cells|)| != 10 { return false; }
    for block := 1 to 6
      invariant forall b :: 1 <= b < block ==> BlockPasses(plan.cells, b, plan.replicas)
    {
      var passes := CheckBlock(plan.cells, block, plan.replicas);
      if !passes { return false; }
    }
    if plan.reservation.start < NAMESPACE_START || plan.reservation.end > NAMESPACE_END { return false; }
    if !ledger.claimed || ledger.reservation != plan.reservation { return false; }
    if |plan.jobs| != |ledger.entries| { return false; }
    DistinctCardinality(Ids(plan.jobs));
    if |Collected(Ids(plan.jobs))| != |plan.jobs| { return false; }
    var intervals := CheckJobs(plan, ledger.entries);
    if intervals.None? { return false; }
    SpansPositive(plan, ledger.entries);
    ok := CheckNeighbours(intervals.value);
  }

  lemma SpansPositive(plan: Plan, entries: seq<Entry>)
    requires forall k :: 0 <= k < |plan.jobs| ==> JobPasses(plan, entries, plan.jobs[k])
    ensures forall k :: 0 <= k < |plan.jobs| ==> Intervals(plan.jobs)[k].start < Intervals(plan.jobs)[k].end
  {
  }

  // ----- what acceptance says of any plan -----

  /** No sequence number belongs to two jobs; every job has its 10,001 sequences, inside the reservation and the
      namespace. */
  lemma AcceptedApart(plan: Plan, ledger: Ledger, i: nat, j: nat, q: int)
    requires ValidPlan(plan, ledger) && i < |plan.jobs| && j < |plan.jobs|
    ensures plan.jobs[i].base <= q < plan.jobs[i].end && plan.jobs[j].base <= q < plan.jobs[j].end ==> i == j
    ensures plan.jobs[i].end == plan.jobs[i].base + 10_001
    ensures plan.reservation.start <= plan.jobs[i].base && plan.jobs[i].end <= plan.reservation.end
    ensures 22_000_000_000 <= plan.jobs[i].base && plan.jobs[i].end <= 23_000_000_000
  {
    assert JobPasses(plan, ledger.entries, plan.jobs[i]);
    if i < j { assert Apart(Intervals(plan.jobs)[i], Intervals(plan.jobs)[j]); }
    if j < i { assert Apart(Intervals(plan.jobs)[j], Intervals(plan.jobs)[i]); }
  }

  lemma {:induction false} LastEntryAt(entries: seq<Entry>, n: nat, id: string) returns (at: nat)
    requires n <= |entries| && LastEntry(entries, n, id).Some?
    ensures at < n && entries[at].jobId == id && LastEntry(entries, n, id).value == entries[at]
  {
    if entries[n - 1].jobId == id { at := n - 1; } else { at := LastEntryAt(entries, n - 1, id); }
  }

  /** The positions at which the first `n` jobs find their entries. */
  lemma {:induction false} EntryPositions(plan: Plan, entries: seq<Entry>, n: nat) returns (at: seq<nat>)
    requires n <= |plan.jobs| && Distinct(Ids(plan.jobs))
    requires forall k :: 0 <= k < |plan.jobs| ==> JobPasses(plan, entries, plan.jobs[k])
    ensures |at| == n && Distinct(at)
    ensures forall k :: 0 <= k < n ==>
              && at[k] < |entries| && entries[at[k]].jobId == plan.jobs[k].jobId
              && entries[at[k]].interval == Interval(plan.jobs[k].base, plan.jobs[k].end)
  {
    at := [];
    if n > 0 {
      at := EntryPositions(plan, entries, n - 1);
      assert JobPasses(plan, entries, plan.jobs[n - 1]);
      var p := LastEntryAt(entries, |entries|, plan.jobs[n - 1].jobId);
      forall k | 0 <= k < n - 1 ensures at[k] != p { assert Ids(plan.jobs)[k] != Ids(plan.jobs)[n - 1]; }
      at := at + [p];
    }
  }

  lemma AllPositions(at: seq<nat>, n: nat)
    requires |at| == n && Distinct(at) && forall k :: 0 <= k < n ==> at[k] < n
    ensures forall p: nat :: p < n ==> p in at
  {
    DistinctCardinality(at);
    DistinctCardinality(UpTo(n));
    var used, all := Collected(at), Collected(UpTo(n));
    assert used <= all by { forall p | p in used ensures p in all { assert UpTo(n)[p] == p; } }
    assert |all - used| == 0 && all - used == {};
    forall p: nat | p < n ensures p in at { assert UpTo(n)[p] == p && p in all; }
  }

  /** The ledger lists the jobs and nothing else: every job by its id and range, and every entry is a job's. */
  lemma LedgerExactly(plan: Plan, ledger: Ledger, p: nat)
    requires ValidPlan(plan, ledger) && p < |ledger.entries|
    ensures exists k :: 0 <= k < |plan.jobs| && ledger.entries[p] ==
              Entry(plan.jobs[k].jobId, Interval(plan.jobs[k].base, plan.jobs[k].end))
  {
    hide JobPasses, PairwiseApart, CellsPass;
    var at := EntryPositions(plan, ledger.entries, |plan.jobs|);
    AllPositions(at, |plan.jobs|);
    assert p in at;
    var k :| 0 <= k < |at| && at[k] == p;
    assert ledger.entries[p] == Entry(plan.jobs[k].jobId, Interval(plan.jobs[k].base, plan.jobs[k].end));
  }

  lemma {:induction false} OfBlockAt(cells: seq<Cell>, block: nat, n: nat) returns (at: seq<nat>)
    requires n <= |cells|
    ensures |at| == |OfBlock(cells, block, n)|
    ensures forall k :: 0 <= k < |at| ==> at[k] < n && OfBlock(cells, block, n)[k] == cells[at[k]]
    ensures forall k, l :: 0 <= k < l < |at| ==> at[k] < at[l]
    ensures forall i :: 0 <= i < n ==> (i in at <==> cells[i].phase == Knee && cells[i].block == Some(block))
  {
    at := [];
    if n > 0 {
      at := OfBlockAt(cells, block, n - 1);
      if cells[n - 1].phase == Knee && cells[n - 1].block == Some(block) { at := at + [n - 1]; }
    }
  }

  /** Cell `i` of the plan offers `rate` and nothing else. */
  ghost predicate OffersOnly(cell: Cell, rate: nat) {
    (exists e :: 0 <= e < |cell.rates| && cell.rates[e] == Some(rate))
    && forall e :: 0 <= e < |cell.rates| ==> cell.rates[e] == None || cell.rates[e] == Some(rate)
  }

  /** Each of the five blocks is two knee cells, one in each period, one at 41 and one at 42. */
  lemma AcceptedBlock(plan: Plan, ledger: Ledger, block: nat) returns (i: nat, j: nat)
    requires ValidPlan(plan, ledger) && 1 <= block <= 5
    ensures i < j < |plan.cells| == 16
    ensures forall c :: 0 <= c < |plan.cells| ==>
              (c == i || c == j <==> plan.cells[c].phase == Knee && plan.cells[c].block == Some(block))
    ensures (plan.cells[i].period == Some(A) && plan.cells[j].period == Some(B))
         || (plan.cells[i].period == Some(B) && plan.cells[j].period == Some(A))
    ensures (OffersOnly(plan.cells[i], 41) && OffersOnly(plan.cells[j], 42))
         || (OffersOnly(plan.cells[i], 42) && OffersOnly(plan.cells[j], 41))
  {
    assert BlockPasses(plan.cells, block, plan.replicas);
    var pair := OfBlock(plan.cells, block, |plan.cells|);
    var at := OfBlockAt(plan.cells, block, |plan.cells|);
    i, j := at[0], at[1];
    assert pair[0] == plan.cells[i] && pair[1] == plan.cells[j];
    hide OfBlock, PairwiseApart, JobPasses, KneeCells, PureRate, OffersOnly;
    PureOffers(plan.cells[i], plan.replicas);
    PureOffers(plan.cells[j], plan.replicas);
    assert {pair[0].period, pair[1].period} == {Some(A), Some(B)};
    assert Some(A) in {pair[0].period, pair[1].period} && Some(B) in {pair[0].period, pair[1].period};
    assert forall c :: 0 <= c < |plan.cells| ==> (c in at <==> c == i || c == j);
  }

  lemma PureOffers(cell: Cell, replicas: nat)
    requires replicas > 0
    ensures forall rate :: PureRate(cell, replicas, rate) ==> OffersOnly(cell, rate)
  {
    var active := Active(cell.rates, |cell.rates|);
    forall rate | PureRate(cell, replicas, rate) ensures OffersOnly(cell, rate) {
      assert cell.rates[active[0]].Some?;
    }
  }

  // ----- built plans pass -----

  lemma {:induction false} KneeRange(replicas: nat, campaign: nat, n: nat)
    requires n <= CELLS
    ensures |KneeCells(ExpectedCells(replicas, campaign), n)| == if n <= 3 then 0 else if n <= 13 then n - 3 else 10
  {
    if n > 0 { KneeRange(replicas, campaign, n - 1); }
  }

  lemma {:induction false} BlockRange(replicas: nat, campaign: nat, block: nat, n: nat)
    requires n <= CELLS && 1 <= block <= 5
    ensures var cells, at := ExpectedCells(replicas, campaign), 2 * block + 1;
      OfBlock(cells, block, n) ==
        if n <= at then [] else if n == at + 1 then [cells[at]] else [cells[at], cells[at + 1]]
  {
    hide ExpectedCell;
    if n > 0 {
      BlockRange(replicas, campaign, block, n - 1);
      BlockOfCell(replicas, campaign, block, n - 1);
    }
  }

  lemma BlockOfCell(replicas: nat, campaign: nat, block: nat, i: nat)
    requires i < CELLS && 1 <= block <= 5
    ensures var cell := ExpectedCell(i, replicas, campaign);
      cell.phase.Knee? && cell.block == Some(block) <==> i == 2 * block + 1 || i == 2 * block + 2
  {
  }

  lemma PureCell(cell: Cell, rate: nat, replicas: nat)
    requires cell.rates == All(rate, replicas)
    ensures PureRate(cell, replicas, rate)
  {
    ActiveAll(rate, replicas, replicas);
  }

  lemma BlockOfPlan(replicas: nat, campaign: nat, block: nat)
    requires AllowedRung(replicas) && 1 <= block <= 5
    ensures BlockPasses(ExpectedCells(replicas, campaign), block, replicas)
  {
    hide PureRate, All, OnlyZero, OfBlock;
    var cells := ExpectedCells(replicas, campaign);
    BlockRange(replicas, campaign, block, CELLS);
    var at, first := 2 * block + 1, FirstRate(block, campaign);
    PureCell(cells[at], first, replicas);
    PureCell(cells[at + 1], 83 - first, replicas);
  }

  lemma CellsOfPlan(runId: string, campaign: nat, replicas: nat)
    requires AllowedRung(replicas)
    ensures CellsPass(PlanOf(runId, campaign, replicas))
  {
    hide BlockPasses, KneeCells, ExpectedCell;
    KneeRange(replicas, campaign, CELLS);
    forall block | 1 <= block <= 5 ensures BlockPasses(ExpectedCells(replicas, campaign), block, replicas) {
      BlockOfPlan(replicas, campaign, block);
    }
  }

  lemma TwoDigits(n: nat)
    requires n < 100
    ensures |Padded(n, 2)| == 2
  {
    assert Pow10(2) == 100;
    ShowLength(n, 2);
  }

  /** A job id is a DNS label of at most 50 characters, and tells its cell and endpoint. */
  lemma JobIdReads(runId: string, c: nat, e: nat)
    requires c < 100 && e < 100
    ensures var id, n := JobId(runId, c, e), |runId|;
      |id| == n + 12 && id[n + 6..n + 8] == Padded(c, 2) && id[n + 10..n + 12] == Padded(e, 2)
  {
    TwoDigits(c);
    TwoDigits(e);
  }

  lemma JobIdLabel(runId: string, c: nat, e: nat)
    requires DnsLabel(runId) && |runId| <= 38 && c < 100 && e < 100
    ensures DnsLabel(JobId(runId, c, e)) && |JobId(runId, c, e)| <= 50
  {
    TwoDigits(c);
    TwoDigits(e);
    var id, n := JobId(runId, c, e), |runId|;
    assert id[4..n + 4] == runId && id[n + 6..n + 8] == Padded(c, 2) && id[n + 10..n + 12] == Padded(e, 2);
    forall i | 0 <= i < |id| ensures DnsChar(id[i]) {
      if 4 <= i < n + 4 { assert id[i] == runId[i - 4]; }
      if n + 6 <= i < n + 8 { assert IsDigit(Padded(c, 2)[i - n - 6]); }
      if n + 10 <= i < n + 12 { assert IsDigit(Padded(e, 2)[i - n - 10]); }
    }
    assert IsDigit(Padded(e, 2)[1]);
  }

  lemma JobIdInjective(runId: string, c: nat, e: nat, d: nat, f: nat)
    requires c < 100 && e < 100 && d < 100 && f < 100 && JobId(runId, c, e) == JobId(runId, d, f)
    ensures c == d && e == f
  {
    hide JobId, Padded;
    JobIdReads(runId, c, e);
    JobIdReads(runId, d, f);
    PaddedParses(c, 2);
    PaddedParses(d, 2);
    PaddedParses(e, 2);
    PaddedParses(f, 2);
  }

  ghost predicate JobFits(plan: Plan, runId: string, campaign: nat, k: nat, slot: (nat, nat))
    requires k < |plan.jobs|
  {
    var job := plan.jobs[k];
    && slot.0 < CELLS && slot.1 < 50 && job.jobId == JobId(runId, slot.0, slot.1)
    && job.allocation == k && job.cell == slot.0 && job.endpoint == slot.1 && job.rows == MAX_ROWS
    && job.rate == (if campaign % 2 == 0 then EVEN_ORDER else ODD_ORDER)[slot.0] && job.slots == 180 * job.rate
    && job.base == plan.reservation.start + k * JOB_SEQUENCE_SPAN && job.end == job.base + JOB_SEQUENCE_SPAN
    && k < 604 && job.end <= plan.reservation.end
  }

  function PlanSlots(replicas: nat, campaign: nat): seq<(nat, nat)> { Slots(ExpectedCells(replicas, campaign), CELLS) }

  lemma PlanJob(runId: string, campaign: nat, replicas: nat, k: nat)
    requires AllowedRung(replicas) && k < |PlanOf(runId, campaign, replicas).jobs|
    ensures k < |PlanSlots(replicas, campaign)|
    ensures JobFits(PlanOf(runId, campaign, replicas), runId, campaign, k, PlanSlots(replicas, campaign)[k])
  {
    hide ExpectedCell, JobId, Slots, Jobs;
    var cells, slots := ExpectedCells(replicas, campaign), PlanSlots(replicas, campaign);
    SlotFacts(cells, CELLS);
    JobAt(runId, campaign, cells, slots, k);
    Made(runId, campaign, cells, k, slots[k]);
    ReservationFits(replicas, CELLS, campaign, k + 1);
    CellJobs(slots[k].0, replicas, campaign);
    RateOfSlot(slots[k], replicas, campaign);
    assert k * JOB_SEQUENCE_SPAN + JOB_SEQUENCE_SPAN == (k + 1) * JOB_SEQUENCE_SPAN;
  }

  lemma RateOfSlot(slot: (nat, nat), replicas: nat, campaign: nat)
    requires slot.0 < CELLS && slot.1 < |ExpectedCell(slot.0, replicas, campaign).rates|
    requires ExpectedCell(slot.0, replicas, campaign).rates[slot.1].Some?
    ensures ExpectedCell(slot.0, replicas, campaign).rates[slot.1].value
         == (if campaign % 2 == 0 then EVEN_ORDER else ODD_ORDER)[slot.0]
  {
    FrozenOrder(slot.0, replicas, campaign);
  }

  lemma IdsDistinct(runId: string, campaign: nat, replicas: nat)
    requires AllowedRung(replicas)
    ensures Distinct(Ids(PlanOf(runId, campaign, replicas).jobs))
  {
    hide PlanOf, JobId, Slots;
    var jobs, slots := PlanOf(runId, campaign, replicas).jobs, PlanSlots(replicas, campaign);
    SlotFacts(ExpectedCells(replicas, campaign), CELLS);
    forall i, j | 0 <= i < j < |jobs| ensures jobs[i].jobId != jobs[j].jobId {
      PlanJob(runId, campaign, replicas, i);
      PlanJob(runId, campaign, replicas, j);
      assert Earlier(slots[i], slots[j]);
      if jobs[i].jobId == jobs[j].jobId {
        JobIdInjective(runId, slots[i].0, slots[i].1, slots[j].0, slots[j].1);
      }
    }
  }

  lemma {:induction false} FindsOwnEntry(jobs: seq<Job>, n: nat, k: nat)
    requires Distinct(Ids(jobs)) && k < n <= |jobs|
    ensures LastEntry(Entries(jobs), n, jobs[k].jobId) == Some(EntryOf(jobs[k]))
  {
    if k < n - 1 {
      FindsOwnEntry(jobs, n - 1, k);
      assert Ids(jobs)[k] != Ids(jobs)[n - 1];
    }
  }

  lemma JobsApart(runId: string, campaign: nat, replicas: nat)
    requires AllowedRung(replicas)
    ensures PairwiseApart(Intervals(PlanOf(runId, campaign, replicas).jobs))
  {
    hide PlanOf, JobId, Slots;
    var plan := PlanOf(runId, campaign, replicas);
    forall i, j | 0 <= i < j < |plan.jobs| ensures Apart(Intervals(plan.jobs)[i], Intervals(plan.jobs)[j]) {
      PlanJob(runId, campaign, replicas, i);
      PlanJob(runId, campaign, replicas, j);
      MulLe(i + 1, j, JOB_SEQUENCE_SPAN);
    }
  }

  /** Every endpoint that a cell gives a rate has one job, and jobs come in the order of cells and endpoints. */
  lemma OneJobPerEndpoint(runId: string, campaign: nat, replicas: nat, c: nat, e: nat)
    requires AllowedRung(replicas) && c < CELLS && e < replicas
    ensures var cells, jobs := ExpectedCells(replicas, campaign), PlanOf(runId, campaign, replicas).jobs;
      && |cells[c].rates| == replicas
      && (cells[c].rates[e].Some? <==> exists k :: 0 <= k < |jobs| && jobs[k].cell == c && jobs[k].endpoint == e)
      && forall k, l :: 0 <= k < l < |jobs| ==>
           Earlier((jobs[k].cell, jobs[k].endpoint), (jobs[l].cell, jobs[l].endpoint))
  {
    hide PlanOf, JobId, Slots, ExpectedCell;
    var cells, jobs, slots := ExpectedCells(replicas, campaign), PlanOf(runId, campaign, replicas).jobs,
                              PlanSlots(replicas, campaign);
    SlotFacts(cells, CELLS);
    PlanLength(runId, campaign, replicas);
    CellJobs(c, replicas, campaign);
    forall k | 0 <= k < |jobs| ensures jobs[k].cell == slots[k].0 && jobs[k].endpoint == slots[k].1 {
      PlanJob(runId, campaign, replicas, k);
    }
    if cells[c].rates[e].Some? {
      SlotListed(cells, CELLS, c, e);
      var k :| 0 <= k < |slots| && slots[k] == (c, e);
      assert jobs[k].cell == c && jobs[k].endpoint == e;
    }
  }

  lemma PlanLength(runId: string, campaign: nat, replicas: nat)
    ensures |PlanOf(runId, campaign, replicas).jobs| == |PlanSlots(replicas, campaign)|
  {
  }

  /** Every plan that can be built passes the validator. */
  lemma BuiltPlanValidates(runId: string, campaign: nat, replicas: nat)
    requires AllowedPlan(runId, campaign, replicas)
    ensures var plan := PlanOf(runId, campaign, replicas); ValidPlan(plan, LedgerOf(plan))
  {
    hide DnsLabel, CellsPass, PairwiseApart, JobId, Slots, Jobs, ExpectedCells, LastEntry;
    var plan := PlanOf(runId, campaign, replicas);
    CellsOfPlan(runId, campaign, replicas);
    IdsDistinct(runId, campaign, replicas);
    JobsApart(runId, campaign, replicas);
    forall k | 0 <= k < |plan.jobs| ensures JobPasses(plan, LedgerOf(plan).entries, plan.jobs[k]) {
      PlanJob(runId, campaign, replicas, k);
      FindsOwnEntry(plan.jobs, |plan.jobs|, k);
    }
  }

  // ----- across campaigns -----

  /** A ledger found under the root: whether its path is that of the ledger being written, and its
      reservation if it can be read. */
  datatype StoredLedger = StoredLedger(own: bool, reservation: Option<Interval>)

  ghost predicate Harmless(wanted: Interval, stored: StoredLedger) {
    stored.own || (stored.reservation.Some? && Apart(wanted, stored.reservation.value))
  }

  /** Accepts a reservation exactly when every other ledger is readable and apart from it; the ledger at the
      plan's own path is never opened. */
  method AssertNoOverlap(wanted: Interval, existing: seq<StoredLedger>) returns (ok: bool)
    ensures ok <==> forall i :: 0 <= i < |existing| ==> Harmless(wanted, existing[i])
  {
    var conflicts := 0;
    for i := 0 to |existing|
      invariant conflicts >= 0
      invariant conflicts == 0 <==> forall k :: 0 <= k < i ==> Harmless(wanted, existing[k])
    {
      if existing[i].own { continue; }
      match existing[i].reservation
      case None => conflicts := conflicts + 1;
      case Some(other) =>
        if wanted.start < other.end && other.start < wanted.end { conflicts := conflicts + 1; }
    }
    return conflicts == 0;
  }

  /** Reservations are apart exactly when the campaign indices differ. */
  lemma ReservationsApart(c: nat, d: nat)
    ensures Apart(Reservation(c), Reservation(d)) <==> c != d
  {
    if c < d { MulLe(c + 1, d, CAMPAIGN_SPAN); }
    if d < c { MulLe(d + 1, c, CAMPAIGN_SPAN); }
  }

  /** The campaign, the allocation and the offset are all readable from a sequence number. */
  lemma SequencesDiffer(c: nat, k: nat, i: nat, d: nat, l: nat, j: nat)
    requires k < 604 && l < 604 && i < JOB_SEQUENCE_SPAN && j < JOB_SEQUENCE_SPAN
    requires c != d || k != l || i != j
    ensures Reservation(c).start + k * JOB_SEQUENCE_SPAN + i != Reservation(d).start + l * JOB_SEQUENCE_SPAN + j
  {
    var x, y := k * JOB_SEQUENCE_SPAN + i, l * JOB_SEQUENCE_SPAN + j;
    MulLe(k + 1, 604, JOB_SEQUENCE_SPAN);
    MulLe(l + 1, 604, JOB_SEQUENCE_SPAN);
    DivModUnique(x, JOB_SEQUENCE_SPAN, k, i);
    DivModUnique(y, JOB_SEQUENCE_SPAN, l, j);
    DivModUnique(c * CAMPAIGN_SPAN + x, CAMPAIGN_SPAN, c, x);
    DivModUnique(d * CAMPAIGN_SPAN + y, CAMPAIGN_SPAN, d, y);
  }

  lemma NamespaceFits()
    ensures IdentityBits(TOKEN_COUNT) == 62 && NAMESPACE_END < Pow2(62)
  {
    assert Pow2(10) == 1_024;
    assert Pow2(20) == 1_048_576;
    assert Pow2(30) == 1_073_741_824;
    assert Pow2(35) == 34_359_738_368;
    Pow2Monotone(35, 62);
  }

  lemma PlanRow(runId: string, campaign: nat, replicas: nat, k: nat, i: nat)
    requires AllowedPlan(runId, campaign, replicas)
    requires k < |PlanOf(runId, campaign, replicas).jobs| && i < MAX_ROWS
    ensures k < 604
    ensures var base := PlanOf(runId, campaign, replicas).jobs[k].base;
      base == Reservation(campaign).start + k * JOB_SEQUENCE_SPAN && base + MAX_ROWS <= NAMESPACE_END
  {
    PlanJob(runId, campaign, replicas, k);
    MulLe(campaign, 99, CAMPAIGN_SPAN);
  }

  /** Every job's rows can be generated at the campaign's token budget. */
  lemma JobsGenerate(runId: string, campaign: nat, replicas: nat, k: nat)
    requires AllowedPlan(runId, campaign, replicas) && k < |PlanOf(runId, campaign, replicas).jobs|
    ensures var base := PlanOf(runId, campaign, replicas).jobs[k].base;
      base >= 0 && GeneratedRows(TOKEN_COUNT, base, MAX_ROWS, VERIFIED_TOKENIZER_SHA256).Ok?
  {
    hide PlanOf, DnsLabel, Pow2, Context;
    PlanRow(runId, campaign, replicas, k, 0);
    NamespaceFits();
  }

  /** The rows that job `k` of a plan generates. */
  function RowsOf(runId: string, campaign: nat, replicas: nat, k: nat): (rows: seq<CorpusRow>)
    requires AllowedPlan(runId, campaign, replicas) && k < |PlanOf(runId, campaign, replicas).jobs|
    ensures |rows| == MAX_ROWS
  {
    JobsGenerate(runId, campaign, replicas, k);
    var base := PlanOf(runId, campaign, replicas).jobs[k].base;
    GeneratedRows(TOKEN_COUNT, base, MAX_ROWS, VERIFIED_TOKENIZER_SHA256).value
  }

  lemma RowIs(runId: string, campaign: nat, replicas: nat, k: nat, i: nat)
    requires AllowedPlan(runId, campaign, replicas) && k < |PlanOf(runId, campaign, replicas).jobs| && i < MAX_ROWS
    ensures var s := Reservation(campaign).start + k * JOB_SEQUENCE_SPAN + i;
      && k < 604 && 0 <= s < Pow2(IdentityBits(TOKEN_COUNT))
      && RowsOf(runId, campaign, replicas, k)[i].context == Context(TOKEN_COUNT, s)
  {
    hide PlanOf, DnsLabel, Pow2, Context, IdentityBits;
    JobsGenerate(runId, campaign, replicas, k);
    PlanRow(runId, campaign, replicas, k, i);
    NamespaceFits();
  }

  /** Across all jobs of all campaigns with different indices, and all jobs of one campaign, no context is
      ever generated twice. */
  lemma NoContextTwice(
    runId: string, c: nat, replicas: nat, k: nat, i: nat, otherId: string, d: nat, others: nat, l: nat, j: nat)
    requires AllowedPlan(runId, c, replicas) && k < |PlanOf(runId, c, replicas).jobs| && i < MAX_ROWS
    requires AllowedPlan(otherId, d, others) && l < |PlanOf(otherId, d, others).jobs| && j < MAX_ROWS
    requires c != d || k != l || i != j
    ensures RowsOf(runId, c, replicas, k)[i].context != RowsOf(otherId, d, others, l)[j].context
  {
    hide PlanOf, DnsLabel, Pow2, Context, IdentityBits, RowsOf;
    RowIs(runId, c, replicas, k, i);
    RowIs(otherId, d, others, l, j);
    SequencesDiffer(c, k, i, d, l, j);
    ContextsDiffer(TOKEN_COUNT, TOKEN_COUNT, Reservation(c).start + k * JOB_SEQUENCE_SPAN + i,
                   Reservation(d).start + l * JOB_SEQUENCE_SPAN + j);
  }

  // ----- balance of the cell order -----

  /** Blocks whose first period runs at the lower rate. */
  function AscendingBlocks(campaign: nat, n: nat): nat {
    if n == 0 then 0 else AscendingBlocks(campaign, n - 1) + (if FirstRate(n, campaign) == 41 then 1 else 0)
  }

  /** Two adjacent campaigns together run five blocks in each order. */
  lemma AdjacentCampaignsBalance(campaign: nat)
    ensures AscendingBlocks(campaign, 5) + AscendingBlocks(campaign + 1, 5) == 5
  {
    FirstFourBlocks(campaign);
    FirstFourBlocks(campaign + 1);
  }

  lemma FirstFourBlocks(campaign: nat)
    ensures AscendingBlocks(campaign, 5) == 2 + (if campaign % 2 == 0 then 1 else 0)
  {
    assert AscendingBlocks(campaign, 1) == 1;
    assert AscendingBlocks(campaign, 2) == 1;
    assert AscendingBlocks(campaign, 3) == 2;
    assert AscendingBlocks(campaign, 4) == 2;
  }
}
