# Verification of the semantic-classification benchmark

This project models the parts of the repository whose correctness carries the benchmark's claims, and
proves what each of them promises.

* **Bounded handoff** (`Handoff`).  Handlers and executor threads as single atomic operations, in any
  interleaving: the admitted count never passes the bound, the channel-full rollback is dead code, jobs
  are conserved, and the executor drains.
* **Latency histogram** (`LatencyHistogram`).  The bit-level bucket index against sorted selection over
  the whole recorded history.
* **Load drivers** (`OfferedRate`, `OpenLoop`, `Claiming`, `ClosedLoop`, `CorpusProbe`).  Exact rational
  schedules, open-loop accounting under every clock and completion order, and shared-counter claiming
  under every interleaving.
* **Topology gate** (`CpuList`, `Topology`, `Placement`).  The cpulist parser and printer, the capture of
  sibling groups, and what a PASS says about cores.
* **Decision procedures** (`Knee`, `KneeInputs`, `Statistics`, `Bootstrap`, `Horizontal`, `Telemetry`,
  `Recovery`).  Each one-pass scan against a declarative rule, on the inputs its aggregation can build, and
  the redundancy of the bootstrap among the preregistered conditions.
* **Sequence space** (`CorpusRows`, `SequencePlan`, `PlanValidation`).  Contexts as binary words, the
  campaign allocator and its validator, up to "no context is ever sent twice".

`Common`, `Sorting` and `Text` hold shared definitions.  Objects that the source updates in place are
classes whose methods are proved against functions of their history; concurrent code is a step function
over values, with the class methods proved equal to its steps.  Every clock, draw, answer and
interleaving is a parameter or an arbitrary choice.

`dafny verify dfyconfig.toml` checks everything.

## Where the code differs from its text

* `handoff.rs:161-163` says the permit is dropped before the count is decremented.  The permit is the
  last part of the job to go, at the end of the loop body; the model follows the code.
* `metrics.rs:44-47` promises every percentile within 12.5% of the true sample.  The top bucket is clamped,
  so the error is at most an eighth of the sample exactly when the sample is at most 960 * 2^34 / 7 us
  (`LatencyHistogram.PromiseExactly`); `PromiseFails` gives the first sample beyond.
* `infer_knee` never judges the lowest tested rate.  A sweep that starts above the knee reports its failing
  lowest rate as the clean one, or reports no knee at all; `Knee.CleanRateFails` and `Knee.NotReachedFails`
  say exactly when, and `KneeInputs` holds such sweeps.
* The clean rate of a bracket can also be p99-elevated; `Knee.CleanRateElevated` gives the exact sweeps.
* `current_admitted` is stored after the count has moved on: when two stores cross it stays wrong after both
  jobs are done (`Handoff.CrossedStores`); `Handoff.GaugeExact` says when it is right.
* The emulator's counter wraps: `Claiming.OnceExactly` gives the exact condition under which "each
  sequence once" holds.
* Cache-miss contexts of the emulator are truncated; `ClosedLoop.UniqueExactly` gives the exact size.
* The recovery text lets the post stream confirm a probe.  On the frozen schedule that yields amber for a
  recovery at +55, or records one at +89, which is red; it never yields green (`Recovery.EvaluateRecovery`).

## Model

| member | source | states |
|---|---|---|
| Handoff.StepKeepsInv | instrumentation/reference/src/handoff.rs:145-241 | one atomic operation of any thread keeps permits, channel slots, counter, threads and channel consistent |
| Handoff.RunKeepsInv | instrumentation/reference/src/handoff.rs:145-241 | so does every interleaving of any number of handlers and executor threads |
| Handoff.AdmittedNeverExceedsBound | instrumentation/reference/src/handoff.rs:212-224 | in every reachable state the counter equals the calls counted and not yet discounted, never exceeds the permits held or the bound, and neither does the maximum, a gauge, or a value about to be stored |
| Handoff.NoWrap | instrumentation/reference/src/handoff.rs:164 | `fetch_sub` never finds zero and `fetch_add` never wraps |
| Handoff.MaxAdmittedExact | instrumentation/reference/src/handoff.rs:250-252 | between calls `max_admitted` is the largest value the counter ever had, not only an upper bound |
| Handoff.StepGauge | instrumentation/reference/src/handoff.rs:164-165 | in every reachable state one step starts to carry the new count exactly when it changes the count, and writes the gauge exactly by storing the value carried |
| Handoff.GaugeExact | instrumentation/reference/src/handoff.rs:216-224 | in every run in which no two gauge stores are on the way at once, the gauge is the admitted count whenever none is |
| Handoff.SequentialGauge | instrumentation/reference/src/handoff.rs:159-166 | calls that run one after another leave the gauge at zero |
| Handoff.CrossedStores | instrumentation/reference/src/handoff.rs:164-165 | two workers whose stores cross leave the gauge one above the count: the run is given |
| Handoff.SubtractionAtZero | instrumentation/reference/src/handoff.rs:164-165 | from a count of zero, which NoWrap excludes, the subtraction would wrap and the gauge value saturate |
| Handoff.SlotFree | instrumentation/reference/src/handoff.rs:126-129 | at every `try_send` the channel has a free slot |
| Handoff.RollbackUnreachable | instrumentation/reference/src/handoff.rs:234-239 | no reachable state is in the channel-full rollback, and at every send a slot is free |
| Handoff.RollbackWouldOverrun | instrumentation/reference/src/handoff.rs:234-239 | were it entered with every permit held, its release order would let the count pass the bound: the run is given |
| Handoff.RollbackRestores | instrumentation/reference/src/handoff.rs:234-239 | what the rollback undoes, from the failed send to the refusal: permit, count, gauge and rejection counter |
| Handoff.RefusedExactlyWhenFull | instrumentation/reference/src/handoff.rs:212-215 | an acquire fails exactly when all `bound` permits are held |
| Handoff.QueueFullMeansFull | instrumentation/reference/src/handoff.rs:201-241 | in every run, `QueueFull` is returned only to a call whose acquire found all permits held |
| Handoff.Conservation | instrumentation/reference/src/handoff.rs:225-241 | jobs leave the channel in send order, none is pushed, popped, classified or answered twice, only popped jobs are classified and only classified ones answered, and at every point sent = answered + queued + running and classified = answered + about to be |
| Handoff.StepUsesMeasure | instrumentation/reference/src/handoff.rs:145-166 | without arrivals every atomic operation uses up a measure |
| Handoff.RunLengthBounded | instrumentation/reference/src/handoff.rs:145-241 | so no run without arrivals is longer than the measure of its first state |
| Handoff.NoDeadlock | instrumentation/reference/src/handoff.rs:150-156 | while a call is unsettled some thread can move |
| Handoff.SettledIsEmpty | instrumentation/reference/src/handoff.rs:225-241 | a settled state has all permits and slots back, count zero, an empty queue, every sent job classified and answered once, and an exact maximum |
| Handoff.Drains | instrumentation/reference/src/handoff.rs:145-166 | from every reachable state some run without arrivals reaches the empty state |
| Handoff.ClassifyTogether | instrumentation/reference/src/handoff.rs:145-166 | for any number of jobs up to the bound and the pool width a run in which that many are classified at once |
| Handoff.ClassifyingAtMost | instrumentation/reference/src/handoff.rs:145-166 | and never more than the bound or the pool width, in any run |
| Handoff.InferenceExecutor.TryEnqueueStep | instrumentation/reference/src/handoff.rs:205-241 | each operation of a handler changes the executor's fields exactly as the protocol step does |
| Handoff.InferenceExecutor.CountStep | instrumentation/reference/src/handoff.rs:222-224 | after the acquire: the count, the gauge and the two maxima, in the source's order |
| Handoff.InferenceExecutor.RollbackStep | instrumentation/reference/src/handoff.rs:234-239 | the rollback operations, in the source's order: permit, count, gauge, rejection counter |
| Handoff.InferenceExecutor.LockReceiver | instrumentation/reference/src/handoff.rs:150-154 | the mutex goes to one idle thread |
| Handoff.InferenceExecutor.BlockingRecv | instrumentation/reference/src/handoff.rs:155 | a receive pops the oldest job, exactly when there is one |
| Handoff.InferenceExecutor.ReceiveStep | instrumentation/reference/src/handoff.rs:150-157 | the slot returns before the job, and the guard is dropped before the forward |
| Handoff.InferenceExecutor.SettleStep | instrumentation/reference/src/handoff.rs:159-166 | the count falls and the gauge is stored before the permit is dropped at the end of the body |
| Handoff.InferenceExecutor.WorkerStep | instrumentation/reference/src/handoff.rs:145-166 | each operation of a worker is the protocol step |
| LatencyHistogram.IndexUsed | instrumentation/reference/src/metrics.rs:81-90 | no value maps into the gap 8..23 |
| LatencyHistogram.IndexMonotone | instrumentation/reference/src/metrics.rs:81-90 | the bucket index is monotone over all 64-bit values |
| LatencyHistogram.LowerBoundInBucket | instrumentation/reference/src/metrics.rs:93-103 | `index(lower_bound(i)) == i` on every reachable index |
| LatencyHistogram.LowerBoundBelow | instrumentation/reference/src/metrics.rs:93-103 | a reported bound never exceeds the sample |
| LatencyHistogram.PromiseExactly | instrumentation/reference/src/metrics.rs:44-51 | the error is at most 12.5% of the true sample if and only if the sample is at most 960 * 2^34 / 7 us |
| LatencyHistogram.PromiseFails | instrumentation/reference/src/metrics.rs:44-51 | the first sample whose error is more than 12.5% of it, and none below it has such an error |
| LatencyHistogram.QuantilePromise | instrumentation/reference/src/metrics.rs:44-47 | a reported percentile is at most the sample of its rank, and within 12.5% of that sample if and only if the sample is at most 960 * 2^34 / 7 us |
| LatencyHistogram.WithinAnEighth | instrumentation/reference/src/metrics.rs:44-51 | below 2^41 us a sample exceeds its report by less than an eighth of the report, or equals it |
| LatencyHistogram.EighthExactly | instrumentation/reference/src/metrics.rs:88-89 | that strict bound, an eighth taken of the report, holds if and only if the sample is below 135 * 2^34 us |
| LatencyHistogram.EighthFails | instrumentation/reference/src/metrics.rs:89 | at 135 * 2^34 us the sample is exactly nine eighths of its clamped report, so the strict bound of the report fails there |
| LatencyHistogram.RankedBucket | instrumentation/reference/src/metrics.rs:114-127 | the running total first reaches rank k exactly at the bucket of the k-th smallest sample |
| LatencyHistogram.RankedReaches | instrumentation/reference/src/metrics.rs:114-127 | the sample aimed at is the one the share reaches: at least that share of the population is at most it and less than that share below it |
| LatencyHistogram.ReachesOne | instrumentation/reference/src/metrics.rs:114-127 | a share is reached by one sample only |
| LatencyHistogram.QuantileMeans | instrumentation/reference/src/metrics.rs:114-127 | a quantile is zero when nothing was recorded and otherwise the bound of the bucket of the sample the share reaches |
| LatencyHistogram.QuantilesOrdered | instrumentation/reference/src/metrics.rs:252-267 | quantiles rise with q and stay at or below the maximum, for every history |
| LatencyHistogram.Histogram.Record | instrumentation/reference/src/metrics.rs:105-110 | appends the sample, in microseconds and capped to a word, to the recorded history |
| LatencyHistogram.Histogram.Quantile | instrumentation/reference/src/metrics.rs:114-127 | equals the bound of the bucket of the rank-selected sample of the sorted history; the final fallback is never reached |
| LatencyHistogram.Metrics.RecordStage | instrumentation/reference/src/metrics.rs:233-246 | a latency reaches its own stage's histogram and sum and no other |
| LatencyHistogram.Metrics.Percentiles | instrumentation/reference/src/metrics.rs:252-267 | p50, p95, p99, max and count are those of the stage's sorted samples, and are ordered |
| OfferedRate.GcdLoop | instrumentation/reference/src/bin/sustained-corpus-probe.rs:176-183 | the loop ends and computes the recursive definition |
| OfferedRate.GcdIsGreatest | instrumentation/reference/src/bin/sustained-corpus-probe.rs:176-183 | which divides both arguments and is divisible by every common divisor |
| OfferedRate.LowestTerms | instrumentation/reference/src/bin/sustained-corpus-probe.rs:139-144 | dividing by it leaves coprime numbers of the same ratio |
| OfferedRate.CutExact | instrumentation/reference/src/bin/sustained-corpus-probe.rs:98-115 | the text splits exactly as unsigned digits, an optional point and at most nine digits |
| OfferedRate.ParseAccepts | instrumentation/reference/src/bin/sustained-corpus-probe.rs:97-145 | accepted exactly when it is such a numeral with value in (0, 10^9] |
| OfferedRate.ParseValue | instrumentation/reference/src/bin/sustained-corpus-probe.rs:129-144 | the result is that value as a fraction in lowest terms |
| OfferedRate.WrittenRefused | instrumentation/reference/src/bin/sustained-corpus-probe.rs:126-138 | which numerals are refused, as zero, past 64 bits or past the cap |
| OfferedRate.TextRefused | instrumentation/reference/src/bin/sustained-corpus-probe.rs:98-115 | any other text is refused for its decimals or as no decimal, exactly |
| Text.NumeralsRise | instrumentation/reference/src/bin/sustained-corpus-probe.rs:118-128 | equally long digit strings compare as the numbers they write |
| OfferedRate.ScheduleExact | instrumentation/reference/src/bin/sustained-corpus-probe.rs:147-163 | slot k is among the offered slots exactly when its offset lies in the half-open window |
| OfferedRate.OffsetsIncrease | instrumentation/reference/src/bin/sustained-corpus-probe.rs:154-163 | offsets strictly increase |
| OfferedRate.IncreasingNeedsCap | instrumentation/reference/src/bin/sustained-corpus-probe.rs:136-138 | above 10^9 per second two slots share an offset, so the cap is needed |
| OfferedRate.OffsetWithinANanosecond | instrumentation/reference/src/bin/sustained-corpus-probe.rs:154-163 | an offset is at most the exact rational time and less than one nanosecond below it |
| OfferedRate.OffsetsDefined | instrumentation/reference/src/bin/sustained-corpus-probe.rs:147-162 | an offset exists exactly when it fits 64 bits; for durations of at most 2^64 nanoseconds the slot count and every offered offset do, so no guard fails |
| OpenLoop.BucketOf | instrumentation/reference/src/bin/sustained-corpus-probe.rs:55-59 | the scan finds the one bucket whose bounds enclose the value |
| OpenLoop.BucketReads | instrumentation/reference/src/bin/sustained-corpus-probe.rs:55-61 | each count is the number of values between its two bounds |
| OpenLoop.BucketsAppend | instrumentation/reference/src/bin/sustained-corpus-probe.rs:55-61 | one more value raises the count of that bucket alone |
| OpenLoop.BucketsConcat | instrumentation/reference/src/bin/sustained-corpus-probe.rs:63-67 | adding two histograms bucket by bucket gives the histogram of both populations |
| OpenLoop.Histogram.Observe | instrumentation/reference/src/bin/sustained-corpus-probe.rs:55-61 | the array stays the histogram of the values observed |
| OpenLoop.Histogram.Merge | instrumentation/reference/src/bin/sustained-corpus-probe.rs:63-67 | the merged counts are those of both populations |
| OpenLoop.TallyCounts | instrumentation/reference/src/bin/sustained-corpus-probe.rs:509-535 | a status map holds exactly the number of kept completions of each status |
| OpenLoop.TallyTotal | instrumentation/reference/src/bin/sustained-corpus-probe.rs:509-535 | and its values sum to the completions kept |
| OpenLoop.TallySplits | instrumentation/reference/src/bin/sustained-corpus-probe.rs:516-534 | within plus after equals total, status by status |
| OpenLoop.RttPopulations | instrumentation/reference/src/bin/sustained-corpus-probe.rs:512-515 | per-status RTT lists match per-status counts |
| OpenLoop.OkPopulation | instrumentation/reference/src/bin/sustained-corpus-probe.rs:522-527 | successful plateau RTTs number the plateau's OK count |
| OpenLoop.OpenLoopResults.RecordCompletion | instrumentation/reference/src/bin/sustained-corpus-probe.rs:509-535 | appends one completion to the history that every counter, map, list and histogram reads |
| OpenLoop.OpenLoopResults.RecordDecision | instrumentation/reference/src/bin/sustained-corpus-probe.rs:589-611 | appends one dispatch decision to the history the drop and lag counters read |
| OpenLoop.OpenLoopResults.Finalize | instrumentation/reference/src/bin/sustained-corpus-probe.rs:537-560 | sorts every list, keeping its contents, when the three assertions hold |
| OpenLoop.DecisionsSplit | instrumentation/reference/src/bin/sustained-corpus-probe.rs:545-550 | every offered slot was initiated or dropped for one reason |
| OpenLoop.OpenLoopResults.ToReport | instrumentation/reference/src/bin/sustained-corpus-probe.rs:537-560 | the report is the reading of the history |
| OpenLoop.ReportDecisions | instrumentation/reference/src/bin/sustained-corpus-probe.rs:589-611 | position by position: each dispatch number of the report counts the decisions it names |
| OpenLoop.LateCounts | instrumentation/reference/src/bin/sustained-corpus-probe.rs:589-611 | likewise the late counters |
| OpenLoop.ReportCompletions | instrumentation/reference/src/bin/sustained-corpus-probe.rs:509-535 | position by position: each completion number, status count and RTT of the report counts the completions it names |
| OpenLoop.OfferSlot | instrumentation/reference/src/bin/sustained-corpus-probe.rs:582-640 | one turn keeps every RPC running, finished or joined, tracks which RPCs run, and judges the slot exactly |
| OpenLoop.Drain | instrumentation/reference/src/bin/sustained-corpus-probe.rs:642-644 | after the last slot every RPC is joined, in whatever order |
| OpenLoop.RunOpenLoop | instrumentation/reference/src/bin/sustained-corpus-probe.rs:563-647 | for every clock, completion order and answers: each slot is dropped late exactly when it missed its window, otherwise dropped for the limit exactly when `max_in_flight` RPCs run at its acquire, never more; no row is issued twice, every issued RPC is recorded once, and the final assertions hold |
| OpenLoop.NearestRankMeets | hack/arena-sc-same-pod-recovery-summarize.py:91-96 | the nearest-rank p99 is within a limit exactly when at most one value in a hundred is above it |
| OpenLoop.RecoveryAcceptsExactly | hack/arena-sc-same-pod-recovery-summarize.py:317-364 | the validator's accounting, status, RTT and dispatch-lag equations hold of a finished run exactly when the slot count was the planned one, nothing was dropped, every status is allowed, and at most one initiated slot in a hundred was dispatched later than the limit |
| OpenLoop.AcceptedMeans | hack/arena-sc-same-pod-recovery-summarize.py:317-364 | what acceptance says of any report: all planned slots sent and answered with an allowed status, both populations add up, lists sorted and complete, at most one dispatch in a hundred late |
| Claiming.RunKeepsInv | driver/src/main.rs:473-482 | in every interleaving claims come out in order and nothing issued is lost or invented, while the counter cannot wrap |
| Claiming.ClaimsInOrder | driver/src/main.rs:475-479 | the sequences issued are 0, 1, 2, ... below the total |
| Claiming.AllFinishedOnce | driver/src/main.rs:473-485 | when all workers have run past the end each sequence below the total was finished exactly once |
| Claiming.OnceExactly | driver/src/main.rs:475-478 | no interleaving issues a sequence twice if and only if total + workers fits the 64-bit counter, or there is nothing to claim |
| Claiming.WrapRepeats | driver/src/main.rs:475 | otherwise a run that issues sequence 0 twice is given |
| Claiming.RunLength | driver/src/main.rs:474-481 | every enabled step uses one unit of work, so the loop ends |
| Claiming.FullRunLength | driver/src/main.rs:468-482 | a complete run is exactly 2 * total + workers steps long |
| Claiming.ClaimedIsFinished | instrumentation/reference/src/bin/sustained-corpus-probe.rs:1194 | however workers stopped, the counter capped at the rows is the number of rows finished |
| ClosedLoop.PairIsResidue | driver/src/main.rs:421-422 | endpoint and connection are together one residue of the sequence |
| ClosedLoop.ResidueCount | driver/src/main.rs:421 | an endpoint's share of the first n sequences is exact |
| ClosedLoop.PairsBalanced | driver/src/main.rs:421-423 | any two (endpoint, connection) pairs are used equally often up to one, in whatever order sequences were sent |
| ClosedLoop.HitRatioExact | driver/src/main.rs:358-364 | any 10,000 consecutive sequences hold exactly `hit_ratio_bps` hits in mixed mode |
| ClosedLoop.PureModes | driver/src/main.rs:358-364 | in hit mode everything hits, in miss mode nothing |
| ClosedLoop.RequestsShare | driver/src/main.rs:366-375 | at a size that holds the sequence number two requests share a context exactly when both are meant to hit |
| ClosedLoop.UniqueExactly | driver/src/main.rs:351-356 | cache-missing contexts are pairwise different over all u64 sequences if and only if the size is at least 38 plus the run id |
| ClosedLoop.StableApart | driver/src/main.rs:346-356 | a hit never shares its context with a miss at any accepted size |
| ClosedLoop.ReadingAgrees | driver/src/main.rs:439-446 | per-endpoint statuses sum to the selected count, and OK count = successes = latencies recorded |
| ClosedLoop.EndpointReads | driver/src/main.rs:439-446 | an endpoint counts each status as often as it was answered there, and keeps the times of exactly its OK answers |
| ClosedLoop.RunStats.Record | driver/src/main.rs:439-446 | one answer is booked against its own endpoint and no other |
| ClosedLoop.Driver.ClaimNext | driver/src/main.rs:475-478 | the atomic claim is the protocol step |
| ClosedLoop.Driver.Answered | driver/src/main.rs:415-447 | an answer finishes the worker's sequence and books it |
| ClosedLoop.RunClosedLoop | driver/src/main.rs:459-487 | under any scheduler the run ends, every sequence is answered once, and each endpoint's statistics add up to its exact share |
| CorpusProbe.MergeCounts | instrumentation/reference/src/bin/sustained-corpus-probe.rs:1164-1168 | merging a worker's map gives the tally of both histories |
| CorpusProbe.MergeLocals | instrumentation/reference/src/bin/sustained-corpus-probe.rs:1164-1177 | after all merges the shared maps, raw list and histogram are those of all completions together |
| CorpusProbe.Probe.PastDeadline | instrumentation/reference/src/bin/sustained-corpus-probe.rs:1131-1133 | a worker past the deadline stops without claiming |
| CorpusProbe.Probe.ClaimRow | instrumentation/reference/src/bin/sustained-corpus-probe.rs:1134-1138 | a claim past the rows marks the corpus exhausted and ends the worker |
| CorpusProbe.Probe.CompleteRow | instrumentation/reference/src/bin/sustained-corpus-probe.rs:1152-1162 | a completion enters the plateau or the drain tally of its worker, and nothing else |
| CorpusProbe.Probe.MakeReport | instrumentation/reference/src/bin/sustained-corpus-probe.rs:1192-1229 | claimed rows = plateau statuses + drained statuses, each claimed row completed once, the histogram and sorted raw times are those of the plateau's OK answers, and exhaustion means every row was claimed |
| CorpusProbe.ReportReads | instrumentation/reference/src/bin/sustained-corpus-probe.rs:1192-1229 | each status count and raw time of the report adds up those of the workers' answers |
| CorpusProbe.RunProbe | instrumentation/reference/src/bin/sustained-corpus-probe.rs:1104-1229 | under any scheduler, deadline and answers the run ends with such a report, which is consistent in itself: its counts add up to the claimed rows, and its sorted raw times number the successes and give its buckets |
| CpuList.ParseCpuList | hack/arena-sc-topology-preflight.py:40-58 | the scan returns the CPUs of the tokens, or the first error |
| CpuList.StripExactly | hack/arena-sc-topology-preflight.py:43-47 | stripping takes off the blanks at both ends and all of them |
| CpuList.TokenExactly | hack/arena-sc-topology-preflight.py:48-57 | a token is read as a range exactly when it is a numeral or an ascending pair with those ends, and refused as descending exactly when it is a descending pair |
| CpuList.AcceptedExactly | hack/arena-sc-topology-preflight.py:40-58 | a list is accepted exactly when its stripped text joins, with commas, tokens that each write a numeral or an ascending pair, blanks allowed around them |
| CpuList.AcceptedValue | hack/arena-sc-topology-preflight.py:46-58 | and then its value is the union of the ranges written |
| CpuList.RefusedExactly | hack/arena-sc-topology-preflight.py:43-57 | a refused list is blank, or the first token that writes no range is named: descending when its ends descend, invalid otherwise |
| CpuList.AcceptedNonEmpty | hack/arena-sc-topology-preflight.py:43-58 | an accepted list names a CPU |
| CpuList.FormatCpuList | hack/arena-sc-topology-preflight.py:61-76 | the loop prints the maximal runs in order |
| CpuList.RunsCanonical | hack/arena-sc-topology-preflight.py:67-75 | those runs are ascending, separated and cover exactly the set |
| CpuList.CanonicalUnique | hack/arena-sc-topology-preflight.py:61-76 | no other list of ranges is canonical for that set |
| CpuList.PrintedTokens | hack/arena-sc-topology-preflight.py:67-76 | one token for each run: a bare numeral for a single CPU, otherwise its ends around a dash |
| CpuList.FewestRanges | hack/arena-sc-topology-preflight.py:61-76 | no list of ranges for the same CPUs is shorter |
| CpuList.ParseFormat | hack/arena-sc-topology-preflight.py:40-76 | parsing the printed text of any non-empty set gives the set back, character by character |
| CpuList.ReformatStable | hack/arena-sc-topology-preflight.py:40-76 | re-formatting accepted text is canonical and changes nothing more |
| CpuList.FormatInjective | hack/arena-sc-topology-preflight.py:61-76 | different sets print differently |
| Topology.ParseExecCapture | hack/arena-sc-topology-preflight.py:163-208 | accepted exactly when the scan succeeds and, for a node, coverage is exact and the sibling map symmetric; the groups are the distinct ones by least CPU; a refusal names its cause |
| Topology.ScanCanonical | hack/arena-sc-topology-preflight.py:167-182 | every text the scan stores is the canonical print of a non-empty set |
| Topology.ScanExactly | hack/arena-sc-topology-preflight.py:167-182 | the scan succeeds exactly when every list parses and the sibling lines of each CPU agree; it keeps the last cpuset, the last online list and one text per CPU |
| Topology.ScanRefused | hack/arena-sc-topology-preflight.py:167-182 | a refused scan names its first bad line: a list that does not parse, or a sibling line contradicting an earlier one |
| Topology.GroupsPartition | hack/arena-sc-topology-preflight.py:189-207 | the groups of an accepted map partition the online CPUs, however listed |
| Topology.CapturedNodeWellFormed | hack/arena-sc-topology-preflight.py:461-480 | groups from an accepted capture always pass the node checks of the snapshot validator |
| Topology.GenuineTopologyAccepted | hack/arena-sc-topology-preflight.py:189-207 | conversely, a capture of any real assignment of CPUs to cores is accepted, in any order |
| Topology.EnterGroups | hack/arena-sc-topology-preflight.py:468-480 | entering groups succeeds exactly on a partition of the online CPUs |
| Topology.BuildNode | hack/arena-sc-topology-preflight.py:459-515 | a node state is built exactly for well-formed evidence, and describes it |
| Placement.WholeCoresByCpu | hack/arena-sc-topology-preflight.py:544-589 | the per-CPU tests find a violation exactly when the cpuset is not a union of whole groups free of reserved CPUs |
| Placement.ApartByCpu | hack/arena-sc-topology-preflight.py:608-636 | the overlap tests find one exactly when two pods share a core |
| Placement.CheckPod | hack/arena-sc-topology-preflight.py:544-589 | each of the three findings is reported exactly when it holds |
| Placement.CheckPair | hack/arena-sc-topology-preflight.py:614-636 | overlap of CPUs, or else of cores, is reported exactly when it holds |
| Placement.BuildNodes | hack/arena-sc-topology-preflight.py:459-515 | states exist exactly for well-formed nodes; both reason counts are exact |
| Placement.PlacePods | hack/arena-sc-topology-preflight.py:520-603 | every pod with complete evidence is placed, and the findings are exactly the faults of those pods, each once |
| Placement.CheckPairs | hack/arena-sc-topology-preflight.py:608-636 | the findings are exactly the faults between two placed pods of one node, each once |
| Placement.ValidateSnapshot | hack/arena-sc-topology-preflight.py:439-655 | PASS exactly when evidence is complete and authoritative, every cpuset is a union of whole sibling groups avoiding housekeeping cores, and no core is shared; INVALID and FAIL exactly as the code orders them; on every branch each of the five violations is listed exactly when a pod, or an ordered pair of one node, has that fault |
| Placement.FaultsMean | hack/arena-sc-topology-preflight.py:544-636 | with complete evidence there is no fault exactly when the placement is clean |
| Placement.CpusApart | hack/arena-sc-topology-preflight.py:608-636 | pods of a clean node share no CPU |
| Placement.PassFitsNode | hack/arena-sc-topology-preflight.py:544-649 | the cpuset sizes on a node sum to at most the CPUs on housekeeping-free cores |
| Placement.PassPossible | hack/arena-sc-topology-preflight.py:645-650 | a snapshot that passes exists |
| Knee.ScanCapacity | hack/arena-sc-open-loop-summarize.py:564-601 | each capacity signal exactly when its figure says so, in reporting order; low marginal gain exactly when more was offered and less than half of the addition served; the efficiency times the added offer is the added useful throughput |
| Knee.InferKnee | hack/arena-sc-open-loop-summarize.py:534-688 | the one-pass scan with its pending elevation equals the declarative first-deciding-rate rule, in every field |
| Knee.RuleDetermines | hack/arena-sc-open-loop-summarize.py:534-688 | the rule leaves nothing open |
| Knee.LatencyPrecedence | hack/arena-sc-open-loop-summarize.py:603-638 | the first elevation repeated at the very next rate decides unless an overload is strictly earlier |
| Knee.CapacityPrecedence | hack/arena-sc-open-loop-summarize.py:640-665 | otherwise the first overload decides |
| Knee.NotReachedExactly | hack/arena-sc-open-loop-summarize.py:667-688 | not reached exactly when no rate above the lowest is overloaded and no two neighbours are both elevated |
| Knee.NotReachedFails | hack/arena-sc-open-loop-summarize.py:552-577 | then some tested rate fails by itself exactly when the lowest one does, which is never judged |
| Knee.BracketsNeighbours | hack/arena-sc-open-loop-summarize.py:625-665 | a bracket is a pair of adjacent tested rates; its lower point fails by itself exactly when it is the lowest rate and that one fails; above it, it is neither overloaded nor, after a confirmation, elevated |
| Knee.BracketReads | hack/arena-sc-open-loop-summarize.py:625-665 | everything a bracket reports read off its points: efficiency, signals in order, confirming rate and confidence |
| Knee.NoBracketSays | hack/arena-sc-open-loop-summarize.py:535-551 | when a sweep is not attributed, too short, or without a knee, and what is reported then |
| Knee.InvalidListed | hack/arena-sc-open-loop-summarize.py:535-545 | the unattributed rates are those of the invalid points, in order |
| Knee.CleanRateFails | hack/arena-sc-open-loop-summarize.py:625-665 | the same on the reported rate: it fails by itself exactly when it is the failing lowest rate |
| Knee.CleanRateElevated | hack/arena-sc-open-loop-summarize.py:656-660 | the rate reported as clean is elevated exactly for sweeps whose first overloaded rate follows a lone elevation it does not repeat |
| Knee.AppendingKeepsBracket | hack/arena-sc-open-loop-summarize.py:535-545 | more rates above a bracket keep it exactly when all of them were validly scheduled |
| Knee.CandidateConfirmed | hack/arena-sc-open-loop-summarize.py:667-687 | an unconfirmed candidate becomes the knee as soon as the next rate repeats it |
| Knee.SlowerDecidesNoLater | hack/arena-sc-open-loop-summarize.py:578-582 | raising latencies above the baseline never moves the decision later |
| Knee.ConfirmRepeatable | hack/arena-sc-open-loop-summarize.py:606-624 | the confidence of a confirmed elevation, and the one combination on which it raises |
| Knee.RaisesExactly | hack/arena-sc-open-loop-summarize.py:611-624 | on points taken as they come, where the scan would compare an absent variation |
| KneeInputs.LatencyMeansThroughput | hack/arena-sc-open-loop-summarize.py:484-530 | a rate with two cells and some latency sampled always has a measured throughput variation |
| KneeInputs.FiguresExactly | hack/arena-sc-open-loop-summarize.py:484-530 | each per-cell figure times what it is a share of gives the count |
| KneeInputs.AggregatesNeverRaise | hack/arena-sc-open-loop-summarize.py:484-688 | so on every aggregated sweep the scan returns a verdict |
| KneeInputs.SinglesAggregate | hack/arena-sc-open-loop-summarize.py:484-530 | ascending attested cells, one per rate, aggregate into their single points |
| KneeInputs.FailingBaselineBrackets | hack/arena-sc-open-loop-summarize.py:552-577 | a sweep starting above the knee reports its failing lowest rate as clean |
| KneeInputs.FailingBaselineHidden | hack/arena-sc-open-loop-summarize.py:676-688 | the same lowest rate under a clean one: not reached |
| KneeInputs.ElevatedRateReportedClean | hack/arena-sc-open-loop-summarize.py:656-660 | an ascending sweep whose reported clean rate has twice the baseline's p99 |
| Statistics.MedianWithin | hack/arena-sc-knee-confirm-extension-analyze.py:71-78 | a median lies between two members |
| Statistics.MedianIsHalfPercentile | hack/arena-sc-knee-confirm-extension-analyze.py:71-78 | and is the R-7 percentile at one half, for odd and even populations |
| Statistics.PercentileWithin | hack/arena-sc-knee-confirm-analyze.py:130-142 | so does an R-7 percentile |
| Statistics.PercentileMonotone | hack/arena-sc-knee-confirm-analyze.py:130-142 | an R-7 percentile rises with its probability |
| Statistics.PercentileInterpolates | hack/arena-sc-knee-confirm-analyze.py:130-142 | at (k + t) / (n - 1) it lies that far between the k-th and the next sorted value |
| Statistics.MedianSplits | hack/arena-sc-knee-confirm-extension-analyze.py:71-78 | at most half of the population is below a median and at most half above it |
| Statistics.DeviationShifts | hack/arena-sc-knee-confirm-analyze.py:120-127 | squared deviations from two centres differ by the parallel-axis terms |
| Statistics.DeviationZero | hack/arena-sc-knee-confirm-analyze.py:120-127 | nothing deviates exactly when every value is the centre |
| Statistics.NearestRankMeans | hack/arena-sc-horizontal-scale-summarize.py:33-38 | the nearest-rank percentile is the least value with at least that fraction at or below it |
| Bootstrap.BootstrapMedianEffects | hack/arena-sc-knee-confirm-extension-analyze.py:81-104 | the resampling loop computes the intervals of the four paired effects from the same draws |
| Bootstrap.MediansRead | hack/arena-sc-knee-confirm-analyze.py:156-160 | each resampled median is that of the drawn blocks' values |
| Bootstrap.IntervalCovers | hack/arena-sc-knee-confirm-analyze.py:161-167 | each end of an interval cuts off a fortieth of the resampled medians, up to one of them, for either percentile |
| Bootstrap.IntervalsRead | hack/arena-sc-knee-confirm-analyze.py:161-167 | the four intervals are those of the four effects |
| Bootstrap.IntervalWithin | hack/arena-sc-knee-confirm-analyze.py:155-167 | for every stream of draws both interval ends lie between the smallest and largest block effect |
| Bootstrap.IntervalOrdered | hack/arena-sc-knee-confirm-analyze.py:161-167 | the lower end never exceeds the upper |
| Bootstrap.UnanimousPasses | hack/arena-sc-knee-confirm-analyze.py:155-174 | blocks that agree strictly pass all four interval checks, whatever is drawn, for either percentile |
| Bootstrap.OneBlockPasses | hack/arena-sc-knee-confirm-analyze.py:155-174 | the converse fails: some draws pass on one block alone |
| Bootstrap.Evaluate | hack/arena-sc-knee-confirm-extension-analyze.py:318-379 | for five or ten blocks, confirmed exactly when attribution, variability and each single block agree: the bootstrap never decides |
| Horizontal.BuildBlocks | hack/arena-sc-horizontal-scale-summarize.py:590-608 | the block rows exist exactly when every ratio does, with clean, stressed and direction verdicts stated without quotients |
| Horizontal.DriftWithin | hack/arena-sc-horizontal-scale-summarize.py:645-658 | the relative change as computed is the two-sided bound it stands for, and exists exactly for a positive base |
| Horizontal.SpreadWithin | hack/arena-sc-horizontal-scale-summarize.py:646-659 | likewise the ratio of the larger to the smaller p99 |
| Horizontal.RunR1 | hack/arena-sc-horizontal-scale-summarize.py:660-666 | the sentinel conjunction in its short-circuit order, including where it raises |
| Horizontal.R1Exactly | hack/arena-sc-horizontal-scale-summarize.py:660-666 | the sentinels pass, and raise, exactly under these conditions on their fields |
| Horizontal.VariabilityExactly | hack/arena-sc-horizontal-scale-summarize.py:617-641 | variability passes exactly when the four columns vary by at most 2%, 2%, 10% and 20% |
| Horizontal.QuotientsMissing | hack/arena-sc-horizontal-scale-summarize.py:590-666 | for exactly which fields a quotient that is always taken does not exist |
| Horizontal.ConfirmsExactly | hack/arena-sc-horizontal-scale-summarize.py:574-670 | what a confirmation takes, field by field |
| Horizontal.BlocksPass | hack/arena-sc-horizontal-scale-summarize.py:623-635 | blocks all stressed past at least 1.25 and all agreeing pass the four nearest-rank intervals, whatever is drawn |
| Horizontal.Decide | hack/arena-sc-horizontal-scale-summarize.py:570-684 | a status is returned exactly when no quotient or missing variation raises; with a stress ratio of at least 1.25 the bootstrap never decides; the four statuses' exact conditions |
| CorpusRows.ContextDecodes | instrumentation/reference/src/bin/sustained-corpus-probe.rs:681-697 | a context is exactly `token_count - 2` words that spell the sequence, least significant bit first |
| CorpusRows.ContextSpells | instrumentation/reference/src/bin/sustained-corpus-probe.rs:686-697 | word by word: one for each bit, then padding |
| CorpusRows.GeneratedExactly | instrumentation/reference/src/bin/sustained-corpus-probe.rs:666-705 | the first failed requirement, or one row for each sequence of the range |
| CorpusRows.ContextsCollideExactly | instrumentation/reference/src/bin/sustained-corpus-probe.rs:676-697 | two contexts coincide exactly when the sequences agree modulo the capacity |
| CorpusRows.ContextsDiffer | instrumentation/reference/src/bin/sustained-corpus-probe.rs:666-705 | within the capacity different sequences or budgets never share a context |
| CorpusRows.CapacityExact | instrumentation/reference/src/bin/sustained-corpus-probe.rs:678-684 | generation refuses exactly the ranges holding a sequence whose context repeats one below the capacity |
| CorpusRows.DistinctCardinality | instrumentation/reference/src/bin/sustained-corpus-probe.rs:751-772 | a collected set is as large as the list exactly when nothing repeats |
| CorpusRows.ValidateRows | instrumentation/reference/src/bin/sustained-corpus-probe.rs:741-777 | accepted exactly when non-empty, of one budget and tokenizer, with distinct contexts and sequences |
| CorpusRows.GeneratedValid | instrumentation/reference/src/bin/sustained-corpus-probe.rs:666-777 | whatever is generated passes |
| SequencePlan.BuildCells | hack/arena-sc-horizontal-scale-plan.py:65-124 | the 16 cells of the frozen order, exactly for the allowed rungs |
| SequencePlan.FrozenOrder | hack/arena-sc-horizontal-scale-plan.py:65-124 | cell by cell: phase, block, period and rate of the frozen table, to every endpoint or only the first |
| SequencePlan.JobCount | hack/arena-sc-horizontal-scale-plan.py:150-152 | a campaign has 4 + 12 * replicas jobs |
| SequencePlan.ReservationFits | hack/arena-sc-horizontal-scale-plan.py:154-157 | so no allocation passes the end of the reservation |
| SequencePlan.BuildPlan | hack/arena-sc-horizontal-scale-plan.py:127-227 | accepts exactly the allowed parameters, with the first failing check as the error, never the reservation error; plan and ledger are those the parameters determine |
| SequencePlan.AllowedExactly | hack/arena-sc-horizontal-scale-plan.py:127-146 | the allowed parameters: a label of up to 38 characters, an index of two digits, a tested rung |
| SequencePlan.SortedNeighboursSuffice | hack/arena-sc-horizontal-scale-summarize.py:127-129 | checking neighbours after sorting finds an overlap exactly when some two intervals overlap |
| PlanValidation.CheckBlock | hack/arena-sc-horizontal-scale-summarize.py:94-103 | a block passes exactly as one pure 41 cell and one pure 42 cell in periods A and B |
| PlanValidation.ValidatePlan | hack/arena-sc-horizontal-scale-summarize.py:66-129 | accepted exactly when the frozen fields, identities, cells, spans, bounds and ledger agree and all job intervals are pairwise disjoint |
| PlanValidation.BuiltPlanValidates | hack/arena-sc-horizontal-scale-summarize.py:66-129 | every plan that can be built passes |
| PlanValidation.PlanJob | hack/arena-sc-horizontal-scale-plan.py:150-200 | job k: its id, cell, endpoint, rate, 180 seconds of slots, 10,000 rows and 10,001 sequences |
| PlanValidation.OneJobPerEndpoint | hack/arena-sc-horizontal-scale-plan.py:150-200 | every endpoint with a rate has one job, in the order of cells and endpoints |
| PlanValidation.AcceptedApart | hack/arena-sc-horizontal-scale-summarize.py:105-129 | in any accepted plan no sequence belongs to two jobs, and each job lies inside reservation and namespace |
| PlanValidation.LedgerExactly | hack/arena-sc-horizontal-scale-summarize.py:105-126 | and its ledger lists the jobs and nothing else |
| PlanValidation.AcceptedBlock | hack/arena-sc-horizontal-scale-summarize.py:88-103 | and each block is two knee cells, one per period, one at 41 and one at 42 |
| PlanValidation.JobIdInjective | hack/arena-sc-horizontal-scale-plan.py:158 | job ids tell their cell and endpoint apart |
| PlanValidation.JobIdLabel | hack/arena-sc-horizontal-scale-plan.py:158 | and are DNS labels of at most 50 characters |
| PlanValidation.AssertNoOverlap | hack/arena-sc-horizontal-scale-plan.py:402-423 | accepts exactly when every existing ledger but the one at the plan's own path is readable and disjoint |
| PlanValidation.ReservationsApart | hack/arena-sc-horizontal-scale-plan.py:144-145 | reservations are disjoint exactly when campaign indices differ |
| PlanValidation.JobsGenerate | instrumentation/reference/src/bin/sustained-corpus-probe.rs:677-684 | every planned job's rows can be generated at the campaign's token budget |
| PlanValidation.NoContextTwice | instrumentation/reference/src/bin/sustained-corpus-probe.rs:666-705 | no two rows generated for any jobs of campaigns with different indices, or of one campaign, share a context |
| PlanValidation.AdjacentCampaignsBalance | hack/arena-sc-horizontal-scale-plan.py:88-93 | two adjacent campaigns run five blocks in each order |
| Telemetry.Measure | hack/arena-sc-same-pod-recovery-summarize.py:663-679 | accepted exactly when the window is covered; samples, ends, largest gap, extremes and mean are those of the window |
| Telemetry.SelectedExactly | hack/arena-sc-open-loop-summarize.py:92-97 | the window keeps recorded order and holds each recorded sample inside it once |
| Telemetry.CoverageReachesEverywhere | hack/arena-sc-open-loop-summarize.py:114-119 | every instant of a covered window has a sample within the gap, even without assuming order |
| Telemetry.CoverageExactly | hack/arena-sc-same-pod-recovery-summarize.py:663-679 | for ordered samples: covered exactly when no stretch of the gap's length is empty |
| Telemetry.ValidateCompleteSeries | hack/arena-sc-open-loop-summarize.py:102-124 | accepted exactly when the query succeeded and each named series exists once, covers the window and holds its expected value |
| Telemetry.CloseExactly | hack/arena-sc-open-loop-summarize.py:77-78 | values are close when they differ by at most 10^-9, of one or of either magnitude |
| Telemetry.NamedCount | hack/arena-sc-open-loop-summarize.py:86-91 | as many series are found as bear the name |
| Recovery.PostContinuation | hack/arena-sc-same-pod-recovery-summarize.py:439-443 | the post stream confirms exactly when non-empty, all OK and inside the budget |
| Recovery.SuffixStart | hack/arena-sc-same-pod-recovery-summarize.py:445-453 | the start of the maximal all-good suffix |
| Recovery.FirstStable | hack/arena-sc-same-pod-recovery-summarize.py:444-461 | the candidate scan finds that start, when the suffix has three probes or the post stream confirms it |
| Recovery.RecoveryAnchored | hack/arena-sc-same-pod-recovery-summarize.py:444-461 | recovery begins at a good probe after a bad one, and when it exists |
| Recovery.BetterNeverLater | hack/arena-sc-same-pod-recovery-summarize.py:444-461 | turning a bad probe good never makes recovery later |
| Recovery.ComparePhases | hack/arena-sc-same-pod-recovery-summarize.py:469-481 | the steady and overload comparisons, stated without quotients, exist exactly when both phases have a population and no ratio is of zero |
| Recovery.PhasesByRatio | hack/arena-sc-same-pod-recovery-summarize.py:469-481 | the same comparisons as ratios of the phases' counts |
| Recovery.EvaluateRecovery | hack/arena-sc-same-pod-recovery-summarize.py:412-467 | on the frozen schedule green needs exactly the last three probes and never the post stream; amber exactly a bad +34 probe with good +55, +89 and post; the post stream alone can record +89, which is red |
| Recovery.EvaluateCycle | hack/arena-sc-same-pod-recovery-summarize.py:403-506 | the gate is green or amber exactly when the comparisons hold and the probes say so; a verdict exists exactly when nothing raises |

## Left out

- Worker panics, poisoned locks and shutdown of the executor: `classify` is taken to return, as the repository states that failure isolation is not implemented.
- What the `current_admitted` gauge shows once stores have crossed, beyond its bound.
- Locks other than the receiver mutex: metric updates under one mutex are single steps.
- gRPC, tokio and tonic internals, sockets, Prometheus text, subprocess and `oc` calls, argument parsing, file reading and rendering.  The semaphore, channel and task set appear by their contracts.
- Overflow of the u64 sample counters and sums of the histograms, and the narrowing of dispatch lags to u64: these are unbounded here.
- Floating-point rounding: quantiles, percentiles, medians, ratios and timestamps are exact reals or rationals.
- The float-driven `rate_at` and open loop of `driver/src/main.rs`.
- The choice of channel `slot % channels` in the open loop, RPC timeouts and the request bodies: an RPC is its status and time.
- BLAKE3 and SHA-256 digests, arming records and nonces.
- Multi-byte run ids in `unique_context`, where truncation could split a character: text is a sequence of characters.
- Splitting a capture into lines and classifying them by pattern: lines arrive classified.
- Topology.ParseExecCapture: which of several asymmetric CPUs is named is not stated, because dictionary and set iteration order decides.
- Placement.ValidateSnapshot: the texts, warnings and per-pod details of the report are not modelled; a value of the wrong JSON type is None.
- Python's limit on the number of digits `int` accepts.
- Knee.InferKnee: the fixed explanatory strings of the report are not modelled; what the aggregated points are is a relation in `KneeInputs`, with variations stated without a root.
- Bootstrap.Evaluate: the external attribution gates arrive as one flag, and the lists of reasons are not modelled; the coefficient of variation is compared squared, without a root.
- Horizontal.Decide: cells arrive aggregated, and the report's numbers beside the status, such as the horizontal efficiency, are not modelled.
- Recovery.EvaluateCycle: the scheduled seconds and slots are positive and the eleven probe offsets fixed, as the plan validator requires; the queue ratio arrives computed.
- OpenLoop.RecoveryAcceptsExactly: the field-identity checks, digests and clock checks of the report validator are not modelled.
- SequencePlan.BuildPlan: cell names, nonces, the provenance fields no validator compares and the unset observation fields of the ledger are not modelled.
- The horizontal `validate_report`, which expects `sequence_base + 10_000` as the last sequence where the driver emits `sequence_base + 9_999`.
- The remaining transport, profile and preflight scripts and the field-equality lists of the summarizers: single-branch checks that would add only easy members.
