/** The bounded inference handoff as a step-level concurrent protocol.

    Every atomic operation of the handler thread and of the executor threads is one
    step, and any thread may move between any two steps.  The semaphore and the
    bounded channel appear by their contracts: a channel slot is reserved before the
    job becomes visible, and is given back after the job leaves the list but before
    the receive returns it. */
module Handoff {
  import opened Common

  /** The largest capacity the semaphore and the channel accept (usize::MAX >> 3). */
  const MAX_PERMITS: nat := 0x1FFF_FFFF_FFFF_FFFF

  /** Where one `try_enqueue` call, and later the job it created, has got to.
      The phase names the last atomic operation done. */
  datatype Phase =
    // handler thread
    | Entered
    | Refused
    | Acquired
    | Counted(n: nat)
    | GaugeStored(n: nat)
    | GaugeMaxed(n: nat)
    | Tracked
    | Reserved
    // rollback of a failed send
    | SendFailed
    | JobDropped
    | RolledBack(after: nat)
    | RollbackStored
    // returned QueueFull
    | Rejected
    // in the channel
    | Queued
    // executor thread `w`
    | Popped(w: nat)
    | Received(w: nat)
    | Unlocked(w: nat)
    | Classified(w: nat)
    | Answered(w: nat)
    | Discounted(w: nat, after: nat)
    | Stored(w: nat)
    // permit dropped at the end of the loop body
    | Finished

  datatype Worker = Idle | Waiting | Working(call: nat)

  /** The shared state.  `peak`, `sent`, `received`, `classified` and `answers` are history:
      the largest value `current` ever had, and the jobs in the order they were pushed, popped,
      classified and answered. */
  datatype State = State(
    bound: nat,
    permits: nat,
    slots: nat,
    current: nat,
    max: nat,
    gauge: nat,
    gaugeMax: nat,
    rejections: nat,
    queue: seq<nat>,
    lock: Option<nat>,
    workers: seq<Worker>,
    calls: seq<Phase>,
    peak: nat,
    sent: seq<nat>,
    received: seq<nat>,
    classified: seq<nat>,
    answers: seq<nat>)

  datatype Action =
    | Arrive
    | Client(c: nat)
    | Lock(w: nat)
    | Receive(w: nat)
    | Work(w: nat)

  function Init(bound: nat, workers: nat): State {
    State(bound, bound, bound, 0, 0, 0, 0, 0, [], None,
          seq(Max(workers, 1), _ => Idle), [], 0, [], [], [], [])
  }

  /** `fetch_add(1)` and `fetch_sub(1)` wrap around. */
  function Increment(x: nat): nat { (x + 1) % WORD }
  function Decrement(x: nat): nat { (x + WORD - 1) % WORD }
  function SaturatingPredecessor(x: nat): nat { if x == 0 then 0 else x - 1 }

  /** One atomic operation of the handler thread running call `c`. */
  function ClientStep(s: State, c: nat): Option<State>
    requires c < |s.calls|
  {
    match s.calls[c]
    case Entered =>
      if s.permits > 0
      then Some(s.(permits := s.permits - 1, calls := s.calls[c := Acquired]))
      else Some(s.(calls := s.calls[c := Refused]))
    case Refused =>
      Some(s.(rejections := Increment(s.rejections), calls := s.calls[c := Rejected]))
    case Acquired =>
      var n := Increment(s.current);
      Some(s.(current := n, peak := Max(s.peak, n), calls := s.calls[c := Counted(n)]))
    case Counted(n) =>
      Some(s.(gauge := n, calls := s.calls[c := GaugeStored(n)]))
    case GaugeStored(n) =>
      Some(s.(gaugeMax := Max(s.gaugeMax, n), calls := s.calls[c := GaugeMaxed(n)]))
    case GaugeMaxed(n) =>
      Some(s.(max := Max(s.max, n), calls := s.calls[c := Tracked]))
    case Tracked =>
      if s.slots > 0
      then Some(s.(slots := s.slots - 1, calls := s.calls[c := Reserved]))
      else Some(s.(calls := s.calls[c := SendFailed]))
    case Reserved =>
      Some(s.(queue := s.queue + [c], sent := s.sent + [c], calls := s.calls[c := Queued]))
    case SendFailed =>
      Some(s.(permits := s.permits + 1, calls := s.calls[c := JobDropped]))
    case JobDropped =>
      Some(s.(current := Decrement(s.current),
              calls := s.calls[c := RolledBack(SaturatingPredecessor(s.current))]))
    case RolledBack(after) =>
      Some(s.(gauge := after, calls := s.calls[c := RollbackStored]))
    case RollbackStored =>
      Some(s.(rejections := Increment(s.rejections), calls := s.calls[c := Rejected]))
    case _ => None
  }

  /** One atomic operation of executor thread `w` on the job it holds. */
  function WorkStep(s: State, w: nat): Option<State>
    requires w < |s.workers|
  {
    if !s.workers[w].Working? || s.workers[w].call >= |s.calls| then None else
    var c := s.workers[w].call;
    match s.calls[c]
    case Popped(_) =>
      Some(s.(slots := s.slots + 1, calls := s.calls[c := Received(w)]))
    case Received(_) =>
      Some(s.(lock := None, calls := s.calls[c := Unlocked(w)]))
    case Unlocked(_) =>
      Some(s.(classified := s.classified + [c], calls := s.calls[c := Classified(w)]))
    case Classified(_) =>
      Some(s.(answers := s.answers + [c], calls := s.calls[c := Answered(w)]))
    case Answered(_) =>
      Some(s.(current := Decrement(s.current),
              calls := s.calls[c := Discounted(w, SaturatingPredecessor(s.current))]))
    case Discounted(_, after) =>
      Some(s.(gauge := after, calls := s.calls[c := Stored(w)]))
    case Stored(_) =>
      Some(s.(permits := s.permits + 1, workers := s.workers[w := Idle],
              calls := s.calls[c := Finished]))
    case _ => None
  }

  /** The state after an action, or None when the thread cannot take it now. */
  function Step(s: State, a: Action): Option<State> {
    match a
    case Arrive => Some(s.(calls := s.calls + [Entered]))
    case Client(c) => if c < |s.calls| then ClientStep(s, c) else None
    case Lock(w) =>
      if w < |s.workers| && s.workers[w].Idle? && s.lock.None?
      then Some(s.(lock := Some(w), workers := s.workers[w := Waiting]))
      else None
    case Receive(w) =>
      if w < |s.workers| && s.workers[w].Waiting? && |s.queue| > 0 && s.queue[0] < |s.calls|
      then
        var c := s.queue[0];
        Some(s.(queue := s.queue[1..], received := s.received + [c],
                workers := s.workers[w := Working(c)], calls := s.calls[c := Popped(w)]))
      else None
    case Work(w) => if w < |s.workers| then WorkStep(s, w) else None
  }

  function Run(s: State, actions: seq<Action>): Option<State> {
    if |actions| == 0 then Some(s) else
    match Run(s, actions[..|actions| - 1])
    case None => None
    case Some(t) => Step(t, actions[|actions| - 1])
  }

  // ----- what each phase holds -----

  predicate OnWorker(p: Phase) {
    p.Popped? || p.Received? || p.Unlocked? || p.Classified? || p.Answered? || p.Discounted? || p.Stored?
  }

  predicate InRollback(p: Phase) {
    p.SendFailed? || p.JobDropped? || p.RolledBack? || p.RollbackStored?
  }

  /** Between `fetch_add` and `max.fetch_max`: the observed value `n` is still on its way to `max`. */
  predicate PendingMax(p: Phase) { p.Counted? || p.GaugeStored? || p.GaugeMaxed? }

  predicate PendingGaugeMax(p: Phase) { p.Counted? || p.GaugeStored? }

  predicate HoldsLock(p: Phase) { p.Popped? || p.Received? }

  predicate WasSent(p: Phase) { p.Queued? || OnWorker(p) || p.Finished? }

  predicate WasClassified(p: Phase) { p.Classified? || WasAnswered(p) }

  predicate WasAnswered(p: Phase) { p.Answered? || p.Discounted? || p.Stored? || p.Finished? }

  predicate Settled(p: Phase) { p.Rejected? || p.Finished? }

  function PermitWeight(p: Phase): nat {
    if p.Acquired? || PendingMax(p) || p.Tracked? || p.Reserved? || p.SendFailed? || p.Queued? || OnWorker(p)
    then 1 else 0
  }

  /** Incremented by `fetch_add` and not yet decremented by `fetch_sub`. */
  function CountWeight(p: Phase): nat {
    if PendingMax(p) || p.Tracked? || p.Reserved? || p.SendFailed? || p.JobDropped? || p.Queued?
       || (OnWorker(p) && !p.Discounted? && !p.Stored?)
    then 1 else 0
  }

  function SlotWeight(p: Phase): nat {
    if p.Reserved? || p.Queued? || p.Popped? then 1 else 0
  }

  function RejectedWeight(p: Phase): nat { if p.Rejected? then 1 else 0 }

  // ----- the invariant -----

  ghost predicate Capacity(s: State) {
    && 1 <= s.bound <= MAX_PERMITS
    && |s.workers| >= 1
  }

  ghost predicate Accounting(s: State) {
    && s.permits + Sum(s.calls, PermitWeight) == s.bound
    && s.slots + Sum(s.calls, SlotWeight) == s.bound
    && s.current == Sum(s.calls, CountWeight)
    && s.rejections == Sum(s.calls, RejectedWeight) % WORD
  }

  ghost predicate NoRollback(s: State) {
    forall c :: 0 <= c < |s.calls| ==> !InRollback(s.calls[c])
  }

  ghost predicate Peaks(s: State) {
    && s.current <= s.peak <= s.bound
    && s.max <= s.peak && s.gaugeMax <= s.peak && s.gauge <= s.bound
    && (forall c :: 0 <= c < |s.calls| && PendingMax(s.calls[c]) ==> s.calls[c].n <= s.peak)
    && (forall c :: 0 <= c < |s.calls| && s.calls[c].Discounted? ==> s.calls[c].after <= s.bound)
    && (s.max == s.peak || exists c :: 0 <= c < |s.calls| && PendingMax(s.calls[c]) && s.calls[c].n == s.peak)
    && (s.gaugeMax == s.peak || exists c :: 0 <= c < |s.calls| && PendingGaugeMax(s.calls[c]) && s.calls[c].n == s.peak)
  }

  ghost predicate Threads(s: State) {
    && (forall w :: 0 <= w < |s.workers| && s.workers[w].Working? ==>
          && s.workers[w].call < |s.calls|
          && OnWorker(s.calls[s.workers[w].call]) && s.calls[s.workers[w].call].w == w)
    && (forall c :: 0 <= c < |s.calls| && OnWorker(s.calls[c]) ==>
          && s.calls[c].w < |s.workers| && s.workers[s.calls[c].w] == Working(c))
    && (s.lock.Some? ==> s.lock.value < |s.workers|)
    && (forall w :: 0 <= w < |s.workers| ==>
          (s.lock == Some(w) <==>
             s.workers[w].Waiting? || (s.workers[w].Working? && HoldsLock(s.calls[s.workers[w].call]))))
  }

  ghost predicate Channel(s: State) {
    && (forall i :: 0 <= i < |s.queue| ==> s.queue[i] < |s.calls| && s.calls[s.queue[i]].Queued?)
    && (forall c :: 0 <= c < |s.calls| && s.calls[c].Queued? ==> c in s.queue)
    && Distinct(s.queue)
  }

  ghost predicate History(s: State) {
    && s.sent == s.received + s.queue
    && Distinct(s.sent) && Distinct(s.classified) && Distinct(s.answers)
    && (forall c :: c in s.sent <==> 0 <= c < |s.calls| && WasSent(s.calls[c]))
    && (forall c :: c in s.classified <==> 0 <= c < |s.calls| && WasClassified(s.calls[c]))
    && (forall c :: c in s.answers <==> 0 <= c < |s.calls| && WasAnswered(s.calls[c]))
  }

  ghost predicate Inv(s: State) {
    Capacity(s) && Accounting(s) && NoRollback(s) && Peaks(s) && Threads(s) && Channel(s) && History(s)
  }

  /** Were the count already zero, a worker's `fetch_sub` would wrap it and its gauge value saturate. */
  lemma SubtractionAtZero(s: State, w: nat, c: nat)
    requires w < |s.workers| && s.workers[w] == Working(c) && c < |s.calls| && s.calls[c].Answered? && s.current == 0
    ensures WorkStep(s, w) == Some(s.(current := 0xFFFF_FFFF_FFFF_FFFF, calls := s.calls[c := Discounted(w, 0)]))
  {
  }

  // ----- the weighted sums move with one phase -----

  /** Outside a rollback, a counted job holds a permit and a job using a channel slot holds one too. */
  lemma Dominance(s: State)
    requires NoRollback(s)
    ensures Sum(s.calls, CountWeight) <= Sum(s.calls, PermitWeight)
    ensures Sum(s.calls, SlotWeight) <= Sum(s.calls, PermitWeight)
  {
    SumDominated(s.calls, CountWeight, PermitWeight);
    SumDominated(s.calls, SlotWeight, PermitWeight);
  }

  /** `fetch_sub` never underflows and `fetch_add` never wraps, since only counted jobs are discounted. */
  lemma NoWrap(s: State, c: nat)
    requires Capacity(s) && Accounting(s) && NoRollback(s) && c < |s.calls|
    ensures s.current <= s.bound
    ensures s.calls[c].Acquired? ==> s.current < s.bound && Increment(s.current) == s.current + 1
    ensures CountWeight(s.calls[c]) == 1 ==> s.current >= 1 && Decrement(s.current) == s.current - 1
  {
    Dominance(s);
    if s.calls[c].Acquired? {
      SumStrictlyDominated(s.calls, c, CountWeight, PermitWeight);
    }
    if CountWeight(s.calls[c]) == 1 {
      SumAtLeast(s.calls, c, CountWeight);
    }
  }

  /** A thread about to send always finds a free channel slot. */
  lemma SlotFree(s: State, c: nat)
    requires Capacity(s) && Accounting(s) && NoRollback(s)
    requires c < |s.calls| && s.calls[c].Tracked?
    ensures s.slots > 0
  {
    SumStrictlyDominated(s.calls, c, SlotWeight, PermitWeight);
  }

  /** The balances move by exactly what one call's phase gains or gives up. */
  ghost predicate Balanced(s: State, t: State, c: nat)
    requires c < |s.calls| && c < |t.calls|
  {
    && t.bound == s.bound
    && t.permits + PermitWeight(t.calls[c]) == s.permits + PermitWeight(s.calls[c])
    && t.slots + SlotWeight(t.calls[c]) == s.slots + SlotWeight(s.calls[c])
    && t.current + CountWeight(s.calls[c]) == s.current + CountWeight(t.calls[c])
    && (if t.calls[c].Rejected? then !s.calls[c].Rejected? && t.rejections == Increment(s.rejections)
        else !s.calls[c].Rejected? && t.rejections == s.rejections)
  }

  lemma BalancedKeepsAccounting(s: State, t: State, c: nat)
    requires Accounting(s) && c < |s.calls| == |t.calls|
    requires t.calls == s.calls[c := t.calls[c]]
    requires Balanced(s, t, c)
    ensures Accounting(t)
  {
    SumUpdate(s.calls, c, t.calls[c], PermitWeight);
    SumUpdate(s.calls, c, t.calls[c], SlotWeight);
    SumUpdate(s.calls, c, t.calls[c], CountWeight);
    SumUpdate(s.calls, c, t.calls[c], RejectedWeight);
  }

  lemma ClientBalanced(s: State, c: nat)
    requires c < |s.calls| && ClientStep(s, c).Some? && !InRollback(s.calls[c])
    requires s.calls[c].Acquired? ==> Increment(s.current) == s.current + 1
    requires s.calls[c].Tracked? ==> s.slots > 0
    ensures Balanced(s, ClientStep(s, c).value, c)
    ensures !InRollback(ClientStep(s, c).value.calls[c])
  {
  }

  lemma WorkBalanced(s: State, w: nat)
    requires w < |s.workers| && WorkStep(s, w).Some?
    requires CountWeight(s.calls[s.workers[w].call]) == 1 ==> Decrement(s.current) == s.current - 1
    ensures Balanced(s, WorkStep(s, w).value, s.workers[w].call)
    ensures !InRollback(WorkStep(s, w).value.calls[s.workers[w].call])
  {
  }

  lemma ReceiveBalanced(s: State, w: nat)
    requires Step(s, Receive(w)).Some? && s.calls[s.queue[0]].Queued?
    ensures Balanced(s, Step(s, Receive(w)).value, s.queue[0])
  {
  }

  // ----- what a step leaves alone -----

  /** A handler-thread step leaves the executor threads alone; it sends at most its own job. */
  lemma ClientEffect(s: State, c: nat)
    requires c < |s.calls| && ClientStep(s, c).Some?
    ensures var t := ClientStep(s, c).value;
      && |t.calls| == |s.calls| && t.calls == s.calls[c := t.calls[c]] && t.bound == s.bound
      && t.workers == s.workers && t.lock == s.lock && t.received == s.received
      && t.classified == s.classified && t.answers == s.answers
      && !WasSent(s.calls[c]) && !WasClassified(t.calls[c])
      && (if s.calls[c].Reserved?
          then t.queue == s.queue + [c] && t.sent == s.sent + [c] && t.calls[c].Queued?
          else t.queue == s.queue && t.sent == s.sent && !WasSent(t.calls[c]))
  {
  }

  lemma ClientKeepsThreads(s: State, t: State, c: nat)
    requires Threads(s) && c < |s.calls| == |t.calls| && t.calls == s.calls[c := t.calls[c]]
    requires t.workers == s.workers && t.lock == s.lock && !OnWorker(s.calls[c]) && !OnWorker(t.calls[c])
    ensures Threads(t)
  {
  }

  lemma ClientKeepsQueue(s: State, t: State, c: nat)
    requires Channel(s) && c < |s.calls| == |t.calls| && t.calls == s.calls[c := t.calls[c]]
    requires !s.calls[c].Queued?
    requires if s.calls[c].Reserved? then t.queue == s.queue + [c] && t.calls[c].Queued?
             else t.queue == s.queue && !t.calls[c].Queued?
    ensures Channel(t)
  {
    assert c !in s.queue by { assert forall i :: 0 <= i < |s.queue| ==> s.calls[s.queue[i]].Queued?; }
    if s.calls[c].Reserved? {
      assert forall k :: k in t.queue <==> k in s.queue || k == c;
    }
  }

  lemma ClientKeepsHistory(s: State, t: State, c: nat)
    requires History(s) && c < |s.calls| == |t.calls| && t.calls == s.calls[c := t.calls[c]]
    requires t.received == s.received && t.classified == s.classified && t.answers == s.answers
    requires !WasSent(s.calls[c]) && !WasClassified(t.calls[c])
    requires if s.calls[c].Reserved?
             then t.queue == s.queue + [c] && t.sent == s.sent + [c] && t.calls[c].Queued?
             else t.queue == s.queue && t.sent == s.sent && !WasSent(t.calls[c])
    ensures History(t)
  {
    assert c !in s.sent && c !in s.classified && c !in s.answers;
    if s.calls[c].Reserved? {
      assert t.sent == t.received + t.queue;
      assert forall k :: k in t.sent <==> k in s.sent || k == c;
    }
  }

  lemma ClientKeepsChannel(s: State, t: State, c: nat)
    requires Channel(s) && History(s) && c < |s.calls| == |t.calls| && t.calls == s.calls[c := t.calls[c]]
    requires t.received == s.received && t.classified == s.classified && t.answers == s.answers
    requires !WasSent(s.calls[c]) && !WasClassified(t.calls[c])
    requires if s.calls[c].Reserved?
             then t.queue == s.queue + [c] && t.sent == s.sent + [c] && t.calls[c].Queued?
             else t.queue == s.queue && t.sent == s.sent && !WasSent(t.calls[c])
    ensures Channel(t) && History(t)
  {
    hide Channel, History;
    ClientKeepsQueue(s, t, c);
    ClientKeepsHistory(s, t, c);
  }

  /** What a step of executor thread `w` does to the thread, its job and the receiver lock. */
  lemma WorkEffect(s: State, w: nat)
    requires w < |s.workers| && WorkStep(s, w).Some?
    ensures var t, c := WorkStep(s, w).value, s.workers[w].call;
      && |t.calls| == |s.calls| && t.calls == s.calls[c := t.calls[c]] && t.bound == s.bound
      && |t.workers| == |s.workers| && t.queue == s.queue && t.sent == s.sent && t.received == s.received
      && OnWorker(s.calls[c]) && WasSent(t.calls[c])
      && (if s.calls[c].Stored?
          then t.calls[c] == Finished && t.workers == s.workers[w := Idle]
          else OnWorker(t.calls[c]) && t.calls[c].w == w && t.workers == s.workers)
      && (if s.calls[c].Received? then t.lock == None && !HoldsLock(t.calls[c])
          else t.lock == s.lock && (HoldsLock(t.calls[c]) <==> HoldsLock(s.calls[c])))
      && (if s.calls[c].Unlocked? then t.classified == s.classified + [c] && t.calls[c].Classified?
          else t.classified == s.classified && (WasClassified(s.calls[c]) <==> WasClassified(t.calls[c])))
      && (if s.calls[c].Classified? then t.answers == s.answers + [c] && t.calls[c].Answered?
          else t.answers == s.answers && (WasAnswered(s.calls[c]) <==> WasAnswered(t.calls[c])))
  {
  }

  lemma WorkKeepsThreads(s: State, t: State, w: nat, c: nat)
    requires Threads(s) && c < |s.calls| == |t.calls| && t.calls == s.calls[c := t.calls[c]]
    requires w < |s.workers| && s.workers[w] == Working(c)
    requires if s.calls[c].Stored? then t.calls[c] == Finished && t.workers == s.workers[w := Idle]
             else OnWorker(t.calls[c]) && t.calls[c].w == w && t.workers == s.workers
    requires if s.calls[c].Received? then t.lock == None && !HoldsLock(t.calls[c])
             else t.lock == s.lock && (HoldsLock(t.calls[c]) <==> HoldsLock(s.calls[c]))
    ensures Threads(t)
  {
    assert forall v :: 0 <= v < |s.workers| && v != w && s.workers[v].Working? ==> s.workers[v].call != c;
  }

  lemma WorkKeepsChannel(s: State, t: State, c: nat)
    requires Channel(s) && History(s) && c < |s.calls| == |t.calls| && t.calls == s.calls[c := t.calls[c]]
    requires t.queue == s.queue && t.sent == s.sent && t.received == s.received
    requires OnWorker(s.calls[c]) && WasSent(t.calls[c]) && !t.calls[c].Queued?
    requires if s.calls[c].Unlocked? then t.classified == s.classified + [c] && t.calls[c].Classified?
             else t.classified == s.classified && (WasClassified(s.calls[c]) <==> WasClassified(t.calls[c]))
    requires if s.calls[c].Classified? then t.answers == s.answers + [c] && t.calls[c].Answered?
             else t.answers == s.answers && (WasAnswered(s.calls[c]) <==> WasAnswered(t.calls[c]))
    ensures Channel(t) && History(t)
  {
    if s.calls[c].Unlocked? {
      assert c !in s.classified;
      assert forall k :: k in t.classified <==> k in s.classified || k == c;
    }
    if s.calls[c].Classified? {
      assert c !in s.answers;
      assert forall k :: k in t.answers <==> k in s.answers || k == c;
    }
  }

  /** A receive pops the oldest job; every other call keeps its phase. */
  lemma ReceiveKeepsThreads(s: State, w: nat)
    requires Threads(s) && Step(s, Receive(w)).Some? && s.calls[s.queue[0]].Queued?
    ensures Threads(Step(s, Receive(w)).value)
  {
    assert forall v :: 0 <= v < |s.workers| && s.workers[v].Working? ==> s.workers[v].call != s.queue[0];
  }

  lemma PopKeepsChannel(s: State, t: State, c: nat)
    requires Channel(s) && c < |s.calls| == |t.calls| && t.calls == s.calls[c := t.calls[c]]
    requires t.calls[c].Popped? && s.queue == [c] + t.queue
    ensures Channel(t)
  {
    assert s.queue[0] == c && s.calls[c].Queued?;
    assert forall i :: 0 <= i < |t.queue| ==> t.queue[i] == s.queue[i + 1];
    assert c !in t.queue;
    assert forall k :: k in s.queue <==> k in t.queue || k == c;
  }

  lemma PopKeepsHistory(s: State, t: State, c: nat)
    requires History(s) && c < |s.calls| == |t.calls| && t.calls == s.calls[c := t.calls[c]]
    requires s.calls[c].Queued? && t.calls[c].Popped? && s.queue == [c] + t.queue
    requires t.received == s.received + [c] && t.sent == s.sent
    requires t.classified == s.classified && t.answers == s.answers
    ensures History(t)
  {
    hide Distinct;
    assert t.sent == t.received + t.queue;
    assert WasSent(s.calls[c]) && !WasClassified(s.calls[c]) && !WasAnswered(s.calls[c]);
  }

  lemma ReceiveKeepsChannel(s: State, w: nat)
    requires Channel(s) && History(s) && Step(s, Receive(w)).Some?
    ensures Channel(Step(s, Receive(w)).value) && History(Step(s, Receive(w)).value)
  {
    var t := Step(s, Receive(w)).value;
    var c := s.queue[0];
    assert s.queue == [c] + t.queue && s.calls[s.queue[0]].Queued?;
    hide Channel, History;
    PopKeepsChannel(s, t, c);
    PopKeepsHistory(s, t, c);
  }

  // ----- high-water marks -----

  /** How one step moves the observed maxima: a `fetch_add` observes a new value, the two
      `fetch_max` operations deliver it, and nothing else touches them. */
  ghost predicate Observes(s: State, t: State, c: nat)
    requires c < |s.calls| && c < |t.calls|
  {
    var p, q := s.calls[c], t.calls[c];
    && t.bound == s.bound && t.gauge <= t.bound
    && (q.Discounted? ==> q.after <= t.bound)
    && (if p.Acquired?
        then t.current <= t.bound && q == Counted(t.current) && t.peak == Max(s.peak, t.current)
             && t.max == s.max && t.gaugeMax == s.gaugeMax
        else t.current <= s.current && t.peak == s.peak)
    && (PendingMax(p) ==>
          if p.GaugeMaxed? then !PendingMax(q) && t.max == Max(s.max, p.n)
          else PendingMax(q) && q.n == p.n && t.max == s.max)
    && (PendingGaugeMax(p) ==>
          if p.GaugeStored? then q == GaugeMaxed(p.n) && t.gaugeMax == Max(s.gaugeMax, p.n)
          else PendingGaugeMax(q) && q.n == p.n && t.gaugeMax == s.gaugeMax)
    && (!PendingMax(p) && !p.Acquired? ==> !PendingMax(q) && t.max == s.max)
    && (!PendingGaugeMax(p) && !p.Acquired? ==> !PendingGaugeMax(q) && t.gaugeMax == s.gaugeMax)
  }

  lemma ClientObserves(s: State, c: nat)
    requires c < |s.calls| && ClientStep(s, c).Some? && !InRollback(s.calls[c])
    requires s.calls[c].Acquired? ==> Increment(s.current) == s.current + 1 <= s.bound
    requires s.current <= s.peak <= s.bound && s.gauge <= s.bound
    requires PendingMax(s.calls[c]) ==> s.calls[c].n <= s.peak
    ensures Observes(s, ClientStep(s, c).value, c)
  {
  }

  lemma WorkObserves(s: State, w: nat)
    requires w < |s.workers| && WorkStep(s, w).Some?
    requires CountWeight(s.calls[s.workers[w].call]) == 1 ==> s.current >= 1 && Decrement(s.current) == s.current - 1
    requires s.current <= s.peak <= s.bound && s.gauge <= s.bound
    requires s.calls[s.workers[w].call].Discounted? ==> s.calls[s.workers[w].call].after <= s.bound
    ensures Observes(s, WorkStep(s, w).value, s.workers[w].call)
  {
  }

  lemma ObservesKeepsPeaks(s: State, t: State, c: nat)
    requires Peaks(s) && c < |s.calls| == |t.calls| && t.calls == s.calls[c := t.calls[c]]
    requires Observes(s, t, c)
    ensures Peaks(t)
  {
    if t.peak != s.peak {
      assert PendingGaugeMax(t.calls[c]) && t.calls[c].n == t.peak;
    } else {
      if t.max != t.peak {
        var k :| 0 <= k < |s.calls| && PendingMax(s.calls[k]) && s.calls[k].n == s.peak;
        assert PendingMax(t.calls[k]) && t.calls[k].n == t.peak;
      }
      if t.gaugeMax != t.peak {
        var k :| 0 <= k < |s.calls| && PendingGaugeMax(s.calls[k]) && s.calls[k].n == s.peak;
        assert PendingGaugeMax(t.calls[k]) && t.calls[k].n == t.peak;
      }
    }
  }

  lemma ReceiveKeepsPeaks(s: State, w: nat)
    requires Peaks(s) && Step(s, Receive(w)).Some? && s.calls[s.queue[0]].Queued?
    ensures Peaks(Step(s, Receive(w)).value)
  {
    ObservesKeepsPeaks(s, Step(s, Receive(w)).value, s.queue[0]);
  }

  // ----- every action keeps the invariant -----

  lemma ArriveKeepsSums(calls: seq<Phase>)
    ensures Sum(calls + [Entered], PermitWeight) == Sum(calls, PermitWeight)
    ensures Sum(calls + [Entered], SlotWeight) == Sum(calls, SlotWeight)
    ensures Sum(calls + [Entered], CountWeight) == Sum(calls, CountWeight)
    ensures Sum(calls + [Entered], RejectedWeight) == Sum(calls, RejectedWeight)
  {
    SumAppend(calls, Entered, PermitWeight);
    SumAppend(calls, Entered, SlotWeight);
    SumAppend(calls, Entered, CountWeight);
    SumAppend(calls, Entered, RejectedWeight);
  }

  lemma ArriveKeepsPeaks(s: State)
    requires Peaks(s)
    ensures Peaks(Step(s, Arrive).value)
  {
    var t := Step(s, Arrive).value;
    assert forall k :: 0 <= k < |s.calls| ==> t.calls[k] == s.calls[k];
  }

  lemma ArriveKeepsThreads(s: State)
    requires Threads(s) && Channel(s) && History(s)
    ensures Threads(Step(s, Arrive).value) && Channel(Step(s, Arrive).value) && History(Step(s, Arrive).value)
  {
  }

  lemma ArriveKeepsInv(s: State)
    requires Inv(s)
    ensures Inv(Step(s, Arrive).value)
  {
    hide Threads, Channel, History, Peaks;
    ArriveKeepsSums(s.calls);
    ArriveKeepsPeaks(s);
    ArriveKeepsThreads(s);
  }

  lemma LockKeepsInv(s: State, w: nat)
    requires Inv(s) && Step(s, Lock(w)).Some?
    ensures Inv(Step(s, Lock(w)).value)
  {
  }

  lemma ClientKeepsInv(s: State, c: nat)
    requires Inv(s) && c < |s.calls| && ClientStep(s, c).Some?
    ensures Inv(ClientStep(s, c).value)
  {
    hide ClientStep, Balanced, Observes, Threads, Channel, History;
    var t := ClientStep(s, c).value;
    NoWrap(s, c);
    if s.calls[c].Tracked? { SlotFree(s, c); }
    ClientEffect(s, c);
    ClientBalanced(s, c);
    BalancedKeepsAccounting(s, t, c);
    ClientKeepsThreads(s, t, c);
    ClientKeepsChannel(s, t, c);
    ClientObserves(s, c);
    ObservesKeepsPeaks(s, t, c);
  }

  lemma ReceiveKeepsInv(s: State, w: nat)
    requires Inv(s) && Step(s, Receive(w)).Some?
    ensures Inv(Step(s, Receive(w)).value)
  {
    hide Observes, Balanced, Peaks;
    var c := s.queue[0];
    assert s.calls[c].Queued?;
    ReceiveBalanced(s, w);
    BalancedKeepsAccounting(s, Step(s, Receive(w)).value, c);
    ReceiveKeepsThreads(s, w);
    ReceiveKeepsChannel(s, w);
    ReceiveKeepsPeaks(s, w);
  }

  lemma WorkKeepsPeaks(s: State, w: nat)
    requires Inv(s) && w < |s.workers| && WorkStep(s, w).Some?
    ensures Peaks(WorkStep(s, w).value)
  {
    var t, c := WorkStep(s, w).value, s.workers[w].call;
    hide WorkStep, Balanced, Observes, Channel, History, Threads, Accounting;
    NoWrap(s, c);
    WorkEffect(s, w);
    WorkObserves(s, w);
    ObservesKeepsPeaks(s, t, c);
  }

  lemma WorkKeepsAccounting(s: State, w: nat)
    requires Inv(s) && w < |s.workers| && WorkStep(s, w).Some?
    ensures Accounting(WorkStep(s, w).value) && NoRollback(WorkStep(s, w).value)
  {
    var t, c := WorkStep(s, w).value, s.workers[w].call;
    hide WorkStep, Balanced, Channel, History, Threads, Peaks, Accounting;
    NoWrap(s, c);
    WorkEffect(s, w);
    WorkBalanced(s, w);
    BalancedKeepsAccounting(s, t, c);
  }

  lemma WorkKeepsInv(s: State, w: nat)
    requires Inv(s) && w < |s.workers| && WorkStep(s, w).Some?
    ensures Inv(WorkStep(s, w).value)
  {
    var t, c := WorkStep(s, w).value, s.workers[w].call;
    hide WorkStep, Balanced, Observes, Channel, History, Peaks, NoRollback, Accounting;
    WorkEffect(s, w);
    WorkKeepsAccounting(s, w);
    WorkKeepsThreads(s, t, w, c);
    WorkKeepsChannel(s, t, c);
    WorkKeepsPeaks(s, w);
  }

  lemma InitHolds(bound: nat, workers: nat)
    requires 1 <= bound <= MAX_PERMITS
    ensures Inv(Init(bound, workers))
  {
  }

  lemma StepKeepsInv(s: State, a: Action)
    requires Inv(s) && Step(s, a).Some?
    ensures Inv(Step(s, a).value)
  {
    match a
    case Arrive => ArriveKeepsInv(s);
    case Client(c) => ClientKeepsInv(s, c);
    case Lock(w) => LockKeepsInv(s, w);
    case Receive(w) => ReceiveKeepsInv(s, w);
    case Work(w) => WorkKeepsInv(s, w);
  }

  /** Any interleaving of any number of handler and executor threads keeps the invariant. */
  lemma {:induction false} RunKeepsInv(s: State, actions: seq<Action>)
    requires Inv(s) && Run(s, actions).Some?
    ensures Inv(Run(s, actions).value)
  {
    hide Inv, Step;
    if |actions| > 0 {
      RunKeepsInv(s, actions[..|actions| - 1]);
      StepKeepsInv(Run(s, actions[..|actions| - 1]).value, actions[|actions| - 1]);
    }
  }

  // ----- the bound -----

  /** AC-008: in every reachable state the admitted count is exact, never exceeds the permits held
      nor the bound, and neither does any value handed to the high-water marks or the gauges. */
  lemma AdmittedNeverExceedsBound(bound: nat, workers: nat, actions: seq<Action>)
    requires 1 <= bound <= MAX_PERMITS && Run(Init(bound, workers), actions).Some?
    ensures var s := Run(Init(bound, workers), actions).value;
      && s.current == Sum(s.calls, CountWeight) <= Sum(s.calls, PermitWeight) == bound - s.permits
      && s.max <= s.peak <= bound
      && s.gauge <= bound && s.gaugeMax <= bound
      && (forall c :: 0 <= c < |s.calls| && PendingMax(s.calls[c]) ==> s.calls[c].n <= bound)
  {
    InitHolds(bound, workers);
    RunKeepsInv(Init(bound, workers), actions);
    RunKeepsBound(Init(bound, workers), actions);
    Dominance(Run(Init(bound, workers), actions).value);
  }

  lemma {:induction false} RunKeepsBound(s: State, actions: seq<Action>)
    requires Run(s, actions).Some?
    ensures Run(s, actions).value.bound == s.bound && |Run(s, actions).value.workers| == |s.workers|
  {
    hide Step;
    if |actions| > 0 {
      RunKeepsBound(s, actions[..|actions| - 1]);
      StepKeepsBound(Run(s, actions[..|actions| - 1]).value, actions[|actions| - 1]);
    }
  }

  lemma StepKeepsBound(s: State, a: Action)
    requires Step(s, a).Some?
    ensures Step(s, a).value.bound == s.bound && |Step(s, a).value.workers| == |s.workers|
  {
  }

  /** `max_admitted()` is not merely an upper estimate: once no handler is between its `fetch_add`
      and its `fetch_max`, it equals the largest value the admitted count ever had. */
  lemma MaxAdmittedExact(s: State)
    requires Inv(s)
    requires forall c :: 0 <= c < |s.calls| ==> !PendingMax(s.calls[c])
    ensures s.max == s.peak == s.gaugeMax
  {
  }

  // ----- the gauge -----

  /** A change of the count has been observed and not yet stored in the gauge. */
  predicate PendingStore(p: Phase) { p.Counted? || p.Discounted? || p.RolledBack? }

  function Carried(p: Phase): nat
    requires PendingStore(p)
  {
    if p.Counted? then p.n else p.after
  }

  ghost predicate Entering(s: State, t: State, c: int) {
    0 <= c < |t.calls| && PendingStore(t.calls[c]) && !(c < |s.calls| && PendingStore(s.calls[c]))
  }

  ghost predicate Leaving(s: State, t: State, c: int) {
    0 <= c < |s.calls| && c < |t.calls| && PendingStore(s.calls[c]) && t.calls[c] != s.calls[c]
  }

  /** What one step does to the gauge: a change of the count starts to carry the new count, and is the only
      thing that changes it; a store writes the value carried, and is the only thing that moves the gauge. */
  ghost predicate GaugeMoves(s: State, t: State) {
    && |s.calls| <= |t.calls|
    && (forall c :: Entering(s, t, c) ==> Carried(t.calls[c]) == t.current)
    && (forall c :: Leaving(s, t, c) ==> !PendingStore(t.calls[c]) && t.gauge == Carried(s.calls[c]))
    && (t.current != s.current ==> exists c :: Entering(s, t, c))
    && (t.gauge != s.gauge ==> exists c :: Leaving(s, t, c))
  }

  /** The same of the one call whose phase a step changes. */
  ghost predicate GaugeMove(s: State, t: State, p: Phase, q: Phase) {
    && (PendingStore(q) ==> !PendingStore(p) && Carried(q) == t.current && t.gauge == s.gauge)
    && (PendingStore(p) ==> !PendingStore(q) && t.gauge == Carried(p) && t.current == s.current)
    && (!PendingStore(p) && !PendingStore(q) ==> t.gauge == s.gauge && t.current == s.current)
  }

  lemma ClientGauge(s: State, c: nat)
    requires c < |s.calls| && ClientStep(s, c).Some? && !InRollback(s.calls[c])
    ensures GaugeMove(s, ClientStep(s, c).value, s.calls[c], ClientStep(s, c).value.calls[c])
  {
  }

  lemma WorkGauge(s: State, w: nat)
    requires w < |s.workers| && WorkStep(s, w).Some?
    requires CountWeight(s.calls[s.workers[w].call]) == 1 ==> s.current >= 1 && Decrement(s.current) == s.current - 1
    ensures var c := s.workers[w].call;
      GaugeMove(s, WorkStep(s, w).value, s.calls[c], WorkStep(s, w).value.calls[c])
  {
  }

  lemma OneCallMoves(s: State, t: State, c: nat)
    requires c < |s.calls| == |t.calls| && t.calls == s.calls[c := t.calls[c]]
    requires GaugeMove(s, t, s.calls[c], t.calls[c])
    ensures GaugeMoves(s, t)
  {
    hide PendingStore, Carried;
    if PendingStore(t.calls[c]) { assert Entering(s, t, c); }
    if PendingStore(s.calls[c]) { assert Leaving(s, t, c); }
  }

  lemma ClientGaugeMoves(s: State, c: nat)
    requires Inv(s) && c < |s.calls| && ClientStep(s, c).Some?
    ensures GaugeMoves(s, ClientStep(s, c).value)
  {
    hide Accounting, Peaks, Threads, Channel, History, GaugeMove, GaugeMoves, ClientStep;
    ClientEffect(s, c);
    ClientGauge(s, c);
    OneCallMoves(s, ClientStep(s, c).value, c);
  }

  lemma WorkGaugeMoves(s: State, w: nat)
    requires Inv(s) && w < |s.workers| && WorkStep(s, w).Some?
    ensures GaugeMoves(s, WorkStep(s, w).value)
  {
    var c := s.workers[w].call;
    hide Accounting, Peaks, Threads, Channel, History, GaugeMove, GaugeMoves, WorkStep;
    NoWrap(s, c);
    WorkEffect(s, w);
    WorkGauge(s, w);
    OneCallMoves(s, WorkStep(s, w).value, c);
  }

  lemma StepGauge(s: State, a: Action)
    requires Inv(s) && Step(s, a).Some?
    ensures GaugeMoves(s, Step(s, a).value)
  {
    match a
    case Client(c) => ClientGaugeMoves(s, c);
    case Work(w) => WorkGaugeMoves(s, w);
    case _ => QuietMoves(s, a);
  }

  lemma QuietMoves(s: State, a: Action)
    requires Inv(s) && Step(s, a).Some? && (a.Arrive? || a.Lock? || a.Receive?)
    ensures GaugeMoves(s, Step(s, a).value)
  {
    hide Accounting, Peaks, Threads, History, NoRollback;
  }

  /** At most one change of the count is on its way to the gauge. */
  ghost predicate NoOverlap(s: State) {
    forall c, d :: 0 <= c < |s.calls| && 0 <= d < |s.calls| && PendingStore(s.calls[c]) && PendingStore(s.calls[d]) ==>
      c == d
  }

  ghost predicate NonePending(s: State) {
    forall c :: 0 <= c < |s.calls| ==> !PendingStore(s.calls[c])
  }

  /** What is on its way is the count, and otherwise the gauge is. */
  ghost predicate GaugeTracks(s: State) {
    && (forall c :: 0 <= c < |s.calls| && PendingStore(s.calls[c]) ==> Carried(s.calls[c]) == s.current)
    && (NonePending(s) ==> s.gauge == s.current)
  }

  lemma MovesTrack(s: State, t: State)
    requires GaugeMoves(s, t) && GaugeTracks(s) && NoOverlap(s) && NoOverlap(t)
    ensures GaugeTracks(t)
  {
    hide PendingStore, Carried;
    if c :| Entering(s, t, c) {
    } else {
      forall c | 0 <= c < |t.calls| && PendingStore(t.calls[c]) ensures Carried(t.calls[c]) == t.current {
        assert !Entering(s, t, c) && !Leaving(s, t, c);
      }
      if c :| Leaving(s, t, c) {
      } else {
        forall c | 0 <= c < |s.calls| && PendingStore(s.calls[c]) ensures PendingStore(t.calls[c]) {
          assert !Leaving(s, t, c);
        }
      }
    }
  }

  /** In no state of the run are two stores on their way at once. */
  ghost predicate StoresApart(s: State, actions: seq<Action>) {
    forall i :: 0 <= i <= |actions| && Run(s, actions[..i]).Some? ==> NoOverlap(Run(s, actions[..i]).value)
  }

  /** `current_admitted` is the admitted count whenever none of its stores is on the way, in every run whose
      stores never overlap... */
  lemma {:induction false} GaugeExact(s: State, actions: seq<Action>)
    requires Inv(s) && GaugeTracks(s) && StoresApart(s, actions) && Run(s, actions).Some?
    ensures GaugeTracks(Run(s, actions).value)
  {
    hide Inv, Step, NoOverlap, GaugeTracks;
    assert actions[..|actions|] == actions;
    if |actions| > 0 {
      var n := |actions| - 1;
      var before := actions[..n];
      forall i | 0 <= i <= n ensures before[..i] == actions[..i] {
      }
      GaugeExact(s, before);
      RunKeepsInv(s, before);
      StepGauge(Run(s, before).value, actions[n]);
      MovesTrack(Run(s, before).value, Run(s, actions).value);
    }
  }

  /** At most one call is on its way. */
  ghost predicate OneAtATime(s: State) {
    forall c, d :: 0 <= c < |s.calls| && 0 <= d < |s.calls| && !Settled(s.calls[c]) && !Settled(s.calls[d]) ==> c == d
  }

  /** ...so calls that run one after another leave the gauge at zero... */
  lemma SequentialGauge(bound: nat, workers: nat, actions: seq<Action>)
    requires 1 <= bound <= MAX_PERMITS && Run(Init(bound, workers), actions).Some?
    requires forall i :: 0 <= i <= |actions| && Run(Init(bound, workers), actions[..i]).Some? ==>
               OneAtATime(Run(Init(bound, workers), actions[..i]).value)
    requires AllSettled(Run(Init(bound, workers), actions).value)
    ensures Run(Init(bound, workers), actions).value.gauge == 0
  {
    hide Inv, Step, AllSettled, OneAtATime, StoresApart, GaugeTracks, Run;
    var s := Init(bound, workers);
    InitHolds(bound, workers);
    InitTracks(bound, workers);
    OneAtATimeApart(s, actions);
    GaugeExact(s, actions);
    RunKeepsInv(s, actions);
    SettledIsEmpty(Run(s, actions).value);
    SettledTracks(Run(s, actions).value);
  }

  lemma InitTracks(bound: nat, workers: nat)
    ensures GaugeTracks(Init(bound, workers))
  {
  }

  lemma OneAtATimeApart(s: State, actions: seq<Action>)
    requires forall i :: 0 <= i <= |actions| && Run(s, actions[..i]).Some? ==> OneAtATime(Run(s, actions[..i]).value)
    ensures StoresApart(s, actions)
  {
    hide Run;
    forall i | 0 <= i <= |actions| && Run(s, actions[..i]).Some? ensures NoOverlap(Run(s, actions[..i]).value) {
      assert OneAtATime(Run(s, actions[..i]).value);
    }
  }

  lemma SettledTracks(s: State)
    requires GaugeTracks(s) && AllSettled(s)
    ensures s.gauge == s.current
  {
  }

  /** ...while two workers whose stores cross leave it one above the count. */
  lemma CrossedStores(s: State, v: nat, w: nat, c: nat, d: nat)
    requires v < |s.workers| && w < |s.workers| && v != w && c < |s.calls| && d < |s.calls| && c != d
    requires s.workers[v] == Working(c) && s.workers[w] == Working(d)
    requires s.calls[c] == Answered(v) && s.calls[d] == Answered(w) && 2 <= s.current < WORD
    ensures var r := Run(s, [Work(v), Work(w), Work(w), Work(v)]);
      r.Some? && r.value.current == s.current - 2 && r.value.gauge == s.current - 1
      && r.value.calls == s.calls[d := Stored(w)][c := Stored(v)]
  {
    hide WorkStep;
    var one, two := s.current - 1, s.current - 2;
    var s1 := s.(current := one, calls := s.calls[c := Discounted(v, one)]);
    var s2 := s1.(current := two, calls := s1.calls[d := Discounted(w, two)]);
    var s3 := s2.(gauge := two, calls := s2.calls[d := Stored(w)]);
    var s4 := s3.(gauge := one, calls := s3.calls[c := Stored(v)]);
    DiscountStep(s, v, c);
    DiscountStep(s1, w, d);
    StoreStep(s2, w, d, two);
    StoreStep(s3, v, c, one);
    FourSteps(s, Work(v), Work(w), Work(w), Work(v), s1, s2, s3, s4);
  }

  lemma DiscountStep(s: State, w: nat, c: nat)
    requires w < |s.workers| && s.workers[w] == Working(c) && c < |s.calls| && s.calls[c] == Answered(w)
    requires 1 <= s.current < WORD
    ensures WorkStep(s, w) == Some(s.(current := s.current - 1, calls := s.calls[c := Discounted(w, s.current - 1)]))
  {
  }

  lemma StoreStep(s: State, w: nat, c: nat, after: nat)
    requires w < |s.workers| && s.workers[w] == Working(c) && c < |s.calls| && s.calls[c] == Discounted(w, after)
    ensures WorkStep(s, w) == Some(s.(gauge := after, calls := s.calls[c := Stored(w)]))
  {
  }

  lemma FourSteps(s: State, a: Action, b: Action, d: Action, e: Action, s1: State, s2: State, s3: State, s4: State)
    requires Step(s, a) == Some(s1) && Step(s1, b) == Some(s2) && Step(s2, d) == Some(s3) && Step(s3, e) == Some(s4)
    ensures Run(s, [a, b, d, e]) == Some(s4)
  {
    hide Step;
    assert [a, b, d, e][..3] == [a, b, d] && [a, b, d][..2] == [a, b] && [a, b][..1] == [a] && [a][..0] == [];
    assert Run(s, []) == Some(s);
    assert Run(s, [a]) == Some(s1);
    assert Run(s, [a, b]) == Some(s2);
  }

  /** The channel-full rollback is dead code: no action ever enters it. */
  lemma RollbackUnreachable(bound: nat, workers: nat, actions: seq<Action>)
    requires 1 <= bound <= MAX_PERMITS && Run(Init(bound, workers), actions).Some?
    ensures var s := Run(Init(bound, workers), actions).value;
      && NoRollback(s)
      && (forall c :: 0 <= c < |s.calls| && s.calls[c].Tracked? ==> s.slots > 0)
  {
    InitHolds(bound, workers);
    RunKeepsInv(Init(bound, workers), actions);
    var s := Run(Init(bound, workers), actions).value;
    forall c | 0 <= c < |s.calls| && s.calls[c].Tracked? ensures s.slots > 0 {
      SlotFree(s, c);
    }
  }

  /** Were it entered, the rollback would break the bound: it gives the permit back before the count, so with
      every permit held and counted a new call gets past `bound`. */
  lemma RollbackWouldOverrun(s: State, c: nat)
    requires c < |s.calls| && s.calls[c].SendFailed?
    requires s.permits == 0 && s.current == s.bound && s.bound + 1 < WORD
    ensures var n := |s.calls|;
      var r := Run(s, [Client(c), Arrive, Client(n), Client(n)]);
      r.Some? && r.value.current == s.bound + 1
  {
    hide ClientStep;
    var n := |s.calls|;
    var s1 := s.(permits := 1, calls := s.calls[c := JobDropped]);
    var s2 := s1.(calls := s1.calls + [Entered]);
    var s3 := s2.(permits := 0, calls := s2.calls[n := Acquired]);
    UndoPermit(s, c);
    AcquireStep(s2, n);
    CountsUp(s3, n);
    FourSteps(s, Client(c), Arrive, Client(n), Client(n), s1, s2, s3, ClientStep(s3, n).value);
  }

  lemma AcquireStep(s: State, c: nat)
    requires c < |s.calls| && s.calls[c].Entered? && s.permits > 0
    ensures ClientStep(s, c) == Some(s.(permits := s.permits - 1, calls := s.calls[c := Acquired]))
  {
  }

  lemma CountsUp(s: State, c: nat)
    requires c < |s.calls| && s.calls[c].Acquired? && s.current + 1 < WORD
    ensures ClientStep(s, c).Some? && ClientStep(s, c).value.current == s.current + 1
  {
  }

  /** What the rollback undoes: from a failed send to the refusal, the permit and the count are back, the gauge
      holds the count, and one more rejection is recorded. */
  lemma RollbackRestores(s: State, c: nat)
    requires c < |s.calls| && s.calls[c].SendFailed? && 1 <= s.current < WORD
    ensures var r := Run(s, [Client(c), Client(c), Client(c), Client(c)]);
      r.Some? && r.value == s.(permits := s.permits + 1, current := s.current - 1, gauge := s.current - 1,
                               rejections := (s.rejections + 1) % WORD, calls := s.calls[c := Rejected])
  {
    hide ClientStep;
    var one := s.current - 1;
    var s1 := s.(permits := s.permits + 1, calls := s.calls[c := JobDropped]);
    var s2 := s1.(current := one, calls := s.calls[c := RolledBack(one)]);
    var s3 := s2.(gauge := one, calls := s.calls[c := RollbackStored]);
    var s4 := s3.(rejections := (s.rejections + 1) % WORD, calls := s.calls[c := Rejected]);
    UndoPermit(s, c);
    UndoCount(s1, c);
    UndoGauge(s2, c, one);
    UndoEnds(s3, c);
    assert s1.calls[c := RolledBack(one)] == s2.calls && s2.calls[c := RollbackStored] == s3.calls;
    assert s3.calls[c := Rejected] == s4.calls;
    FourSteps(s, Client(c), Client(c), Client(c), Client(c), s1, s2, s3, s4);
  }

  lemma UndoPermit(s: State, c: nat)
    requires c < |s.calls| && s.calls[c].SendFailed?
    ensures ClientStep(s, c) == Some(s.(permits := s.permits + 1, calls := s.calls[c := JobDropped]))
  {
  }

  lemma UndoCount(s: State, c: nat)
    requires c < |s.calls| && s.calls[c].JobDropped? && 1 <= s.current < WORD
    ensures ClientStep(s, c) == Some(s.(current := s.current - 1, calls := s.calls[c := RolledBack(s.current - 1)]))
  {
  }

  lemma UndoGauge(s: State, c: nat, after: nat)
    requires c < |s.calls| && s.calls[c] == RolledBack(after)
    ensures ClientStep(s, c) == Some(s.(gauge := after, calls := s.calls[c := RollbackStored]))
  {
  }

  lemma UndoEnds(s: State, c: nat)
    requires c < |s.calls| && s.calls[c].RollbackStored?
    ensures ClientStep(s, c) == Some(s.(rejections := (s.rejections + 1) % WORD, calls := s.calls[c := Rejected]))
  {
  }

  /** At action `i` of the run, call `c` tried to acquire while every permit was held. */
  ghost predicate TurnedAwayAt(s: State, actions: seq<Action>, i: nat, c: nat)
    requires i < |actions|
  {
    && Run(s, actions[..i]).Some?
    && var t := Run(s, actions[..i]).value;
    && actions[i] == Client(c) && c < |t.calls| && t.calls[c].Entered?
    && Sum(t.calls, PermitWeight) == t.bound
  }

  /** A call is refused exactly by an acquire that finds all `bound` permits held... */
  lemma RefusedExactlyWhenFull(s: State, c: nat)
    requires Inv(s) && c < |s.calls| && s.calls[c].Entered?
    ensures ClientStep(s, c).Some?
    ensures ClientStep(s, c).value.calls[c].Refused? <==> Sum(s.calls, PermitWeight) == s.bound
  {
  }

  /** ...and in every run QueueFull is returned only to calls turned away that way. */
  lemma {:induction false} QueueFullMeansFull(s: State, actions: seq<Action>, c: nat)
    requires Inv(s) && c >= |s.calls|
    requires Run(s, actions).Some? && c < |Run(s, actions).value.calls|
    requires var p := Run(s, actions).value.calls[c]; p.Refused? || p.Rejected?
    ensures exists i :: 0 <= i < |actions| && TurnedAwayAt(s, actions, i, c)
  {
    var k := |actions| - 1;
    var before := actions[..k];
    var u := Run(s, before).value;
    RunKeepsInv(s, before);
    if c < |u.calls| && (u.calls[c].Refused? || u.calls[c].Rejected?) {
      QueueFullMeansFull(s, before, c);
      var i :| 0 <= i < k && TurnedAwayAt(s, before, i, c);
      assert before[..i] == actions[..i];
      assert TurnedAwayAt(s, actions, i, c);
    } else {
      RefusalStep(u, actions[k], c);
      assert TurnedAwayAt(s, actions, k, c);
    }
  }

  lemma RefusalStep(s: State, a: Action, c: nat)
    requires Inv(s) && Step(s, a).Some? && c < |Step(s, a).value.calls|
    requires var p := Step(s, a).value.calls[c]; p.Refused? || p.Rejected?
    requires c < |s.calls| ==> !s.calls[c].Refused? && !s.calls[c].Rejected?
    ensures a == Client(c) && c < |s.calls| && s.calls[c].Entered?
    ensures Sum(s.calls, PermitWeight) == s.bound
  {
    match a
    case Client(d) => ClientEffect(s, d);
    case Work(w) => WorkEffect(s, w);
    case _ =>
  }

  // ----- conservation -----

  function SentWeight(p: Phase): nat { if WasSent(p) then 1 else 0 }
  function ClassifiedWeight(p: Phase): nat { if WasClassified(p) then 1 else 0 }
  function AnsweredWeight(p: Phase): nat { if WasAnswered(p) then 1 else 0 }
  function QueuedWeight(p: Phase): nat { if p.Queued? then 1 else 0 }
  function RunningWeight(p: Phase): nat {
    if p.Popped? || p.Received? || p.Unlocked? || p.Classified? then 1 else 0
  }

  lemma {:induction false} SentSplits(calls: seq<Phase>, n: nat)
    requires n <= |calls|
    ensures SumTo(calls, n, SentWeight)
         == SumTo(calls, n, AnsweredWeight) + SumTo(calls, n, QueuedWeight) + SumTo(calls, n, RunningWeight)
  {
    if n > 0 {
      SentSplits(calls, n - 1);
    }
  }

  function UnansweredWeight(p: Phase): nat { if p.Classified? then 1 else 0 }

  lemma {:induction false} ClassifiedSplits(calls: seq<Phase>, n: nat)
    requires n <= |calls|
    ensures SumTo(calls, n, ClassifiedWeight) == SumTo(calls, n, AnsweredWeight) + SumTo(calls, n, UnansweredWeight)
  {
    if n > 0 {
      ClassifiedSplits(calls, n - 1);
    }
  }

  lemma HistoryCounts(s: State)
    requires Channel(s) && History(s)
    ensures |s.sent| == Sum(s.calls, SentWeight) && |s.classified| == Sum(s.calls, ClassifiedWeight)
    ensures |s.answers| == Sum(s.calls, AnsweredWeight) && |s.queue| == Sum(s.calls, QueuedWeight)
  {
    DistinctCount(s.sent, s.calls, |s.calls|, SentWeight);
    DistinctCount(s.classified, s.calls, |s.calls|, ClassifiedWeight);
    DistinctCount(s.answers, s.calls, |s.calls|, AnsweredWeight);
    DistinctCount(s.queue, s.calls, |s.calls|, QueuedWeight);
  }

  /** Jobs leave the channel in send order; no job is pushed, popped, classified or answered twice; only a
      popped job is classified and only a classified one answered; and at every point the jobs sent are
      those answered, queued, or being run, and those classified are answered or about to be. */
  lemma Conservation(s: State)
    requires Inv(s)
    ensures s.received + s.queue == s.sent
    ensures Distinct(s.received) && Distinct(s.sent) && Distinct(s.classified) && Distinct(s.answers)
    ensures forall c :: c in s.answers ==> c in s.classified
    ensures forall c :: c in s.classified ==> c in s.received
    ensures |s.queue| == Sum(s.calls, QueuedWeight)
    ensures |s.sent| == |s.answers| + |s.queue| + Sum(s.calls, RunningWeight)
    ensures |s.classified| == |s.answers| + Sum(s.calls, UnansweredWeight)
  {
    hide Accounting, Peaks, Threads, NoRollback;
    SentSplits(s.calls, |s.calls|);
    ClassifiedSplits(s.calls, |s.calls|);
    HistoryCounts(s);
    assert s.received == s.sent[..|s.received|];
    forall c | c in s.classified ensures c in s.received {
      assert WasSent(s.calls[c]) && !s.calls[c].Queued?;
      assert c in s.sent && c !in s.queue by {
        assert forall i :: 0 <= i < |s.queue| ==> s.calls[s.queue[i]].Queued?;
      }
    }
  }

  // ----- draining -----

  function Rank(p: Phase): nat {
    match p
    case Entered => 16
    case Acquired => 15
    case Counted(_) => 14
    case GaugeStored(_) => 13
    case GaugeMaxed(_) => 12
    case Tracked => 11
    case Reserved => 10
    case Queued => 9
    case Popped(_) => 8
    case Received(_) => 7
    case Unlocked(_) => 6
    case Classified(_) => 5
    case Answered(_) => 4
    case Discounted(_, _) => 3
    case Stored(_) => 2
    case SendFailed => 4
    case JobDropped => 3
    case RolledBack(_) => 2
    case RollbackStored => 1
    case Refused => 1
    case Rejected => 0
    case Finished => 0
  }

  function IdleWeight(w: Worker): nat { if w.Idle? then 1 else 0 }

  /** Atomic operations left before the present calls are all settled. */
  function Remaining(s: State): nat { Sum(s.calls, Rank) + Sum(s.workers, IdleWeight) }

  lemma ClientRankFalls(s: State, c: nat)
    requires c < |s.calls| && ClientStep(s, c).Some?
    ensures Rank(ClientStep(s, c).value.calls[c]) < Rank(s.calls[c])
  {
  }

  /** Settling a job frees its thread, which may then lock again: that costs two. */
  lemma WorkRankFalls(s: State, w: nat)
    requires w < |s.workers| && WorkStep(s, w).Some?
    ensures var t, c := WorkStep(s, w).value, s.workers[w].call;
      Rank(t.calls[c]) + (if s.calls[c].Stored? then 2 else 1) <= Rank(s.calls[c])
  {
  }

  /** Without new arrivals every step uses up the measure. */
  lemma StepUsesMeasure(s: State, a: Action)
    requires Inv(s) && Step(s, a).Some? && !a.Arrive?
    ensures Remaining(Step(s, a).value) < Remaining(s)
  {
    hide Accounting, Peaks, History, NoRollback;
    var t := Step(s, a).value;
    match a
    case Lock(w) =>
      SumUpdate(s.workers, w, Waiting, IdleWeight);
    case Client(c) =>
      ClientEffect(s, c);
      ClientRankFalls(s, c);
      SumUpdate(s.calls, c, t.calls[c], Rank);
    case Receive(w) =>
      var c := s.queue[0];
      assert s.calls[c].Queued?;
      SumUpdate(s.calls, c, Popped(w), Rank);
      SumUpdate(s.workers, w, Working(c), IdleWeight);
    case Work(w) =>
      var c := s.workers[w].call;
      WorkEffect(s, w);
      WorkRankFalls(s, w);
      SumUpdate(s.calls, c, t.calls[c], Rank);
      SumUpdate(s.workers, w, Idle, IdleWeight);
  }

  predicate NoArrivals(actions: seq<Action>) {
    forall i :: 0 <= i < |actions| ==> !actions[i].Arrive?
  }

  /** So no run without arrivals is longer than the measure of its first state. */
  lemma {:induction false} RunLengthBounded(s: State, actions: seq<Action>)
    requires Inv(s) && NoArrivals(actions) && Run(s, actions).Some?
    ensures Remaining(Run(s, actions).value) + |actions| <= Remaining(s)
  {
    hide Inv, Step, Remaining;
    if |actions| > 0 {
      var before := actions[..|actions| - 1];
      RunLengthBounded(s, before);
      RunKeepsInv(s, before);
      StepUsesMeasure(Run(s, before).value, actions[|actions| - 1]);
    }
  }

  ghost predicate AllSettled(s: State) {
    forall c :: 0 <= c < |s.calls| ==> Settled(s.calls[c])
  }

  /** A queued job can always be brought closer to a worker. */
  lemma QueueMoves(s: State, c: nat) returns (a: Action)
    requires Threads(s) && Channel(s) && |s.workers| >= 1
    requires c < |s.calls| && s.calls[c].Queued?
    ensures !a.Arrive? && Step(s, a).Some?
  {
    assert c in s.queue;
    assert s.calls[s.queue[0]].Queued?;
    match s.lock
    case Some(w) =>
      a := if s.workers[w].Waiting? then Receive(w) else Work(w);
    case None =>
      assert s.lock != Some(0);
      a := if s.workers[0].Idle? then Lock(0) else Work(0);
  }

  /** While some call is unsettled, some thread can move: the protocol cannot get stuck. */
  lemma NoDeadlock(s: State) returns (a: Action)
    requires Inv(s) && !AllSettled(s)
    ensures !a.Arrive? && Step(s, a).Some?
  {
    hide Accounting, Peaks, History;
    var c :| 0 <= c < |s.calls| && !Settled(s.calls[c]);
    if OnWorker(s.calls[c]) {
      a := Work(s.calls[c].w);
    } else if s.calls[c].Queued? {
      a := QueueMoves(s, c);
    } else {
      a := Client(c);
    }
  }

  lemma SettledHistory(s: State)
    requires History(s) && AllSettled(s)
    ensures forall c :: (c in s.answers <==> c in s.sent) && (c in s.classified <==> c in s.sent)
  {
  }

  /** A settled state is empty: every permit and slot is back, the count is zero, every job sent was
      classified and answered exactly once, and the recorded maximum is the true one. */
  lemma SettledIsEmpty(s: State)
    requires Inv(s) && AllSettled(s)
    ensures s.permits == s.bound && s.slots == s.bound && s.current == 0 && s.queue == []
    ensures |s.answers| == |s.classified| == |s.sent|
    ensures forall c :: (c in s.answers <==> c in s.sent) && (c in s.classified <==> c in s.sent)
    ensures s.max == s.peak == s.gaugeMax
  {
    hide Channel, History, Threads, Peaks;
    SumToZero(s.calls, |s.calls|, PermitWeight);
    SumToZero(s.calls, |s.calls|, SlotWeight);
    SumToZero(s.calls, |s.calls|, CountWeight);
    SumToZero(s.calls, |s.calls|, RunningWeight);
    SumToZero(s.calls, |s.calls|, UnansweredWeight);
    SumToZero(s.calls, |s.calls|, QueuedWeight);
    SettledHistory(s);
    MaxAdmittedExact(s);
    Conservation(s);
  }

  /** With no new arrivals, scheduling any enabled thread until none is left reaches the empty state. */
  lemma Drains(s: State) returns (actions: seq<Action>)
    requires Inv(s)
    ensures NoArrivals(actions) && Run(s, actions).Some?
    ensures Inv(Run(s, actions).value) && AllSettled(Run(s, actions).value)
    decreases Remaining(s)
  {
    hide Inv, Step, Remaining;
    if AllSettled(s) {
      actions := [];
    } else {
      var a := NoDeadlock(s);
      StepKeepsInv(s, a);
      StepUsesMeasure(s, a);
      var rest := Drains(Step(s, a).value);
      RunPrepends(s, a, rest);
      actions := [a] + rest;
    }
  }

  lemma {:induction false} RunPrepends(s: State, a: Action, rest: seq<Action>)
    requires Step(s, a).Some?
    ensures Run(s, [a] + rest) == Run(Step(s, a).value, rest)
  {
    hide Step;
    var n := |rest|;
    if n == 0 {
      assert ([a] + rest)[..0] == [];
    } else {
      RunPrepends(s, a, rest[..n - 1]);
      assert ([a] + rest)[..n] == [a] + rest[..n - 1];
    }
  }

  // ----- how many jobs run at once -----

  /** A run from `s` to `t` goes on with one more action. */
  lemma RunOn(s: State, actions: seq<Action>, t: State, a: Action)
    requires Run(s, actions) == Some(t)
    ensures Run(s, actions + [a]) == Step(t, a)
  {
    hide Step;
    assert (actions + [a])[..|actions|] == actions;
  }

  /** `t` is `s` with one more call, in phase `p`; `held` permits and `taken` slots are gone. */
  ghost predicate OneMoreCall(s: State, t: State, p: Phase, held: nat, taken: nat) {
    && t.calls == s.calls + [p] && t.bound == s.bound && t.permits + held == s.permits && t.slots + taken == s.slots
    && t.workers == s.workers && t.lock == s.lock && t.queue == s.queue
  }

  /** The handler's steps up to the send, on a call that gets its permit and its slot. */
  lemma HandlerStep(s: State, t: State, p: Phase)
    requires p.Entered? || p.Acquired? || PendingMax(p) || p.Tracked?
    requires OneMoreCall(s, t, p, if p.Entered? then 0 else 1, 0) && s.permits > 0 && s.slots > 0
    ensures var u := ClientStep(t, |s.calls|);
      && u.Some? && |u.value.calls| == |s.calls| + 1
      && OneMoreCall(s, u.value, u.value.calls[|s.calls|], 1, if p.Tracked? then 1 else 0)
      && match p
         case Entered => u.value.calls[|s.calls|].Acquired?
         case Acquired => u.value.calls[|s.calls|].Counted?
         case Counted(_) => u.value.calls[|s.calls|].GaugeStored?
         case GaugeStored(_) => u.value.calls[|s.calls|].GaugeMaxed?
         case GaugeMaxed(_) => u.value.calls[|s.calls|].Tracked?
         case Tracked => u.value.calls[|s.calls|].Reserved?
  {
  }

  /** With a permit and a slot free, a new call can put its job into the channel. */
  lemma Enqueue(s: State) returns (actions: seq<Action>, t: State)
    requires s.permits > 0 && s.slots > 0
    ensures Run(s, actions) == Some(t)
    ensures OneMoreCall(s.(queue := s.queue + [|s.calls|]), t, Queued, 1, 1)
  {
    hide ClientStep;
    var c := |s.calls|;
    actions, t := [Arrive], Step(s, Arrive).value;
    RunOn(s, [], s, Arrive);
    assert [] + [Arrive] == actions && OneMoreCall(s, t, t.calls[c], 0, 0);
    while !t.calls[c].Reserved?
      invariant Run(s, actions) == Some(t) && |t.calls| == c + 1
      invariant var p := t.calls[c];
        && (p.Entered? || p.Acquired? || PendingMax(p) || p.Tracked? || p.Reserved?)
        && OneMoreCall(s, t, p, if p.Entered? then 0 else 1, if p.Reserved? then 1 else 0)
      decreases Rank(t.calls[c])
    {
      HandlerStep(s, t, t.calls[c]);
      RunOn(s, actions, t, Client(c));
      actions, t := actions + [Client(c)], ClientStep(t, c).value;
    }
    RunOn(s, actions, t, Client(c));
    Sends(t, c);
    actions, t := actions + [Client(c)], ClientStep(t, c).value;
  }

  lemma Sends(s: State, c: nat)
    requires c < |s.calls| && s.calls[c].Reserved?
    ensures ClientStep(s, c) == Some(s.(queue := s.queue + [c], sent := s.sent + [c], calls := s.calls[c := Queued]))
  {
  }

  /** The first `k` workers are classifying one job each, and nothing else is under way. */
  ghost predicate Classifying(s: State, k: nat) {
    && |s.calls| == k <= |s.workers| && s.lock == None && s.queue == []
    && s.permits + k == s.bound && s.slots == s.bound
    && (forall i :: 0 <= i < k ==> s.calls[i] == Unlocked(i) && s.workers[i] == Working(i))
    && (forall w :: k <= w < |s.workers| ==> s.workers[w].Idle?)
  }

  lemma OneMoreClassifies(s: State, k: nat) returns (actions: seq<Action>, t: State)
    requires Classifying(s, k) && k < s.bound && k < |s.workers|
    ensures Run(s, actions) == Some(t) && Classifying(t, k + 1)
    ensures t.bound == s.bound && |t.workers| == |s.workers|
  {
    hide ClientStep, WorkStep;
    actions, t := Enqueue(s);
    RunOn(s, actions, t, Lock(k));
    var locked := t.(lock := Some(k), workers := t.workers[k := Waiting]);
    assert Step(t, Lock(k)) == Some(locked);
    RunOn(s, actions + [Lock(k)], locked, Receive(k));
    var popped := Step(locked, Receive(k)).value;
    var after := actions + [Lock(k)] + [Receive(k)];
    TakesJob(popped, k, k);
    RunOn(s, after, popped, Work(k));
    var received := WorkStep(popped, k).value;
    RunOn(s, after + [Work(k)], received, Work(k));
    actions, t := after + [Work(k)] + [Work(k)], WorkStep(received, k).value;
  }

  lemma TakesJob(s: State, w: nat, c: nat)
    requires w < |s.workers| && s.workers[w] == Working(c) && c < |s.calls| && s.calls[c] == Popped(w)
    ensures var r := s.(slots := s.slots + 1, calls := s.calls[c := Received(w)]);
      WorkStep(s, w) == Some(r) && WorkStep(r, w) == Some(r.(lock := None, calls := r.calls[c := Unlocked(w)]))
  {
  }

  lemma RunAppend(s: State, a: seq<Action>, b: seq<Action>)
    requires Run(s, a).Some?
    ensures Run(s, a + b) == Run(Run(s, a).value, b)
  {
    hide Step;
    if |b| == 0 {
      assert a + b == a;
    } else {
      RunAppend(s, a, b[..|b| - 1]);
      assert (a + b)[..|a + b| - 1] == a + b[..|b| - 1];
    }
  }

  /** A pool of `workers` threads (at least one) behind a bound of `bound` can classify that many jobs at once... */
  lemma ClassifyTogether(bound: nat, workers: nat, k: nat) returns (actions: seq<Action>)
    requires 1 <= bound <= MAX_PERMITS && k <= bound && k <= Max(workers, 1)
    ensures Run(Init(bound, workers), actions).Some?
    ensures Sum(Run(Init(bound, workers), actions).value.calls, ClassifyWeight) == k
  {
    hide Run, Step;
    var s := Init(bound, workers);
    actions := [];
    assert Run(s, []) == Some(s) by { NoActions(s); }
    var t := s;
    var n: nat := 0;
    while n < k
      invariant n <= k && Run(s, actions) == Some(t) && Classifying(t, n)
      invariant t.bound == bound && |t.workers| == Max(workers, 1)
    {
      var more, u := OneMoreClassifies(t, n);
      RunAppend(s, actions, more);
      actions, t, n := actions + more, u, n + 1;
    }
    AllClassify(t, k);
  }

  lemma NoActions(s: State)
    ensures Run(s, []) == Some(s)
  {
  }

  /** From the dropped guard until classified. */
  function ClassifyWeight(p: Phase): nat { if p.Unlocked? then 1 else 0 }

  lemma AllClassify(s: State, k: nat)
    requires Classifying(s, k)
    ensures Sum(s.calls, ClassifyWeight) == k
  {
    AllOnes(s.calls, k);
  }

  lemma {:induction false} AllOnes(calls: seq<Phase>, n: nat)
    requires n <= |calls| && forall i :: 0 <= i < n ==> calls[i].Unlocked?
    ensures SumTo(calls, n, ClassifyWeight) == n
  {
    if n > 0 { AllOnes(calls, n - 1); }
  }

  /** The calls the first `n` workers are on. */
  function CallsOf(workers: seq<Worker>, n: nat): (calls: seq<nat>)
    requires n <= |workers|
    ensures |calls| <= n
  {
    if n == 0 then [] else CallsOf(workers, n - 1) + (if workers[n - 1].Working? then [workers[n - 1].call] else [])
  }

  function RunningOn(p: Phase): nat { if OnWorker(p) then 1 else 0 }

  lemma {:induction false} CallsListed(s: State, n: nat)
    requires Threads(s) && n <= |s.workers|
    ensures Distinct(CallsOf(s.workers, n))
    ensures forall c: nat :: c in CallsOf(s.workers, n) <==> c < |s.calls| && OnWorker(s.calls[c]) && s.calls[c].w < n
  {
    if n > 0 {
      CallsListed(s, n - 1);
      var before := CallsOf(s.workers, n - 1);
      assert s.workers[n - 1].Working? ==> s.workers[n - 1].call !in before;
    }
  }

  /** ...and never more: at most one job per thread, and at most as many as the bound. */
  lemma ClassifyingAtMost(bound: nat, workers: nat, actions: seq<Action>)
    requires 1 <= bound <= MAX_PERMITS && Run(Init(bound, workers), actions).Some?
    ensures var n := Sum(Run(Init(bound, workers), actions).value.calls, ClassifyWeight);
      n <= bound && n <= Max(workers, 1)
  {
    var s := Run(Init(bound, workers), actions).value;
    InitHolds(bound, workers);
    RunKeepsInv(Init(bound, workers), actions);
    RunKeepsBound(Init(bound, workers), actions);
    hide Run, Init;
    hide Accounting, Peaks, Channel, History, NoRollback, Threads, OnWorker;
    RunningAtMost(s);
    OnlyRunningClassify(s.calls);
    assert s.permits + Sum(s.calls, PermitWeight) == s.bound by { PermitsHeld(s); }
  }

  lemma RunningAtMost(s: State)
    requires Threads(s)
    ensures Sum(s.calls, RunningOn) <= |s.workers|
  {
    CallsListed(s, |s.workers|);
    DistinctCount(CallsOf(s.workers, |s.workers|), s.calls, |s.calls|, RunningOn);
  }

  lemma OnlyRunningClassify(calls: seq<Phase>)
    ensures Sum(calls, ClassifyWeight) <= Sum(calls, RunningOn)
    ensures Sum(calls, ClassifyWeight) <= Sum(calls, PermitWeight)
  {
    SumDominated(calls, ClassifyWeight, RunningOn);
    SumDominated(calls, ClassifyWeight, PermitWeight);
  }

  lemma PermitsHeld(s: State)
    requires Accounting(s)
    ensures s.permits + Sum(s.calls, PermitWeight) == s.bound
  {
  }

  // ----- the executor object -----

  /** The executor with its fields, each method one atomic operation of one thread.  Every method
      takes the object's state exactly where `Step` takes its snapshot, so what is proved of runs of
      `Step` holds of every interleaving of calls on the object. */
  class InferenceExecutor {
    const bound: nat
    var permits: nat
    var slots: nat
    var current: nat
    var max: nat
    var gauge: nat
    var gaugeMax: nat
    var rejections: nat
    var queue: seq<nat>
    var lock: Option<nat>
    var workers: seq<Worker>
    var calls: seq<Phase>
    ghost var peak: nat
    ghost var sent: seq<nat>
    ghost var received: seq<nat>
    ghost var classified: seq<nat>
    ghost var answers: seq<nat>

    ghost function Snapshot(): State
      reads this
    {
      State(bound, permits, slots, current, max, gauge, gaugeMax, rejections, queue, lock, workers, calls,
            peak, sent, received, classified, answers)
    }

    constructor (bound: nat, width: nat)
      requires 1 <= bound <= MAX_PERMITS
      ensures Snapshot() == Init(bound, width)
    {
      this.bound := bound;
      permits, slots := bound, bound;
      current, max, gauge, gaugeMax, rejections := 0, 0, 0, 0, 0;
      queue, lock, calls := [], None, [];
      workers := seq(Max(width, 1), _ => Idle);
      peak, sent, received, classified, answers := 0, [], [], [], [];
    }

    /** A handler calls `try_enqueue`. */
    method Arrive() returns (c: nat)
      modifies this
      ensures c == |old(calls)| && Snapshot() == Step(old(Snapshot()), Action.Arrive).value
    {
      c := |calls|;
      calls := calls + [Entered];
    }

    /** The next atomic operation of the handler running call `c`; false when it has returned. */
    method TryEnqueueStep(c: nat) returns (moved: bool)
      requires c < |calls| && !InRollback(calls[c])
      modifies this
      ensures moved <==> ClientStep(old(Snapshot()), c).Some?
      ensures Snapshot() == if moved then ClientStep(old(Snapshot()), c).value else old(Snapshot())
    {
      hide Increment;
      moved := true;
      match calls[c]
      case Entered =>
        if permits > 0 {
          permits := permits - 1;
          calls := calls[c := Acquired];
        } else {
          calls := calls[c := Refused];
        }
      case Refused =>
        rejections := Increment(rejections);
        calls := calls[c := Rejected];
      case Acquired => CountStep(c);
      case Counted(_) => CountStep(c);
      case GaugeStored(_) => CountStep(c);
      case GaugeMaxed(_) => CountStep(c);
      case Tracked =>
        if slots > 0 {
          slots := slots - 1;
          calls := calls[c := Reserved];
        } else {
          calls := calls[c := SendFailed];
        }
      case Reserved =>
        queue := queue + [c];
        sent := sent + [c];
        calls := calls[c := Queued];
      case _ =>
        moved := false;
    }

    /** With the permit taken: the count, the gauge, and the two maxima. */
    method CountStep(c: nat)
      requires c < |calls| && (calls[c].Acquired? || PendingMax(calls[c]))
      modifies this
      ensures Some(Snapshot()) == ClientStep(old(Snapshot()), c)
    {
      hide Increment;
      match calls[c]
      case Acquired =>
        current := Increment(current);
        peak := Max(peak, current);
        calls := calls[c := Counted(current)];
      case Counted(n) =>
        gauge := n;
        calls := calls[c := GaugeStored(n)];
      case GaugeStored(n) =>
        gaugeMax := Max(gaugeMax, n);
        calls := calls[c := GaugeMaxed(n)];
      case GaugeMaxed(n) =>
        max := Max(max, n);
        calls := calls[c := Tracked];
    }

    /** The next atomic operation of a handler whose send failed. */
    method RollbackStep(c: nat)
      requires c < |calls| && InRollback(calls[c])
      modifies this
      ensures Some(Snapshot()) == ClientStep(old(Snapshot()), c)
    {
      match calls[c]
      case SendFailed =>
        permits := permits + 1;
        calls := calls[c := JobDropped];
      case JobDropped =>
        calls := calls[c := RolledBack(SaturatingPredecessor(current))];
        current := Decrement(current);
      case RolledBack(after) =>
        gauge := after;
        calls := calls[c := RollbackStored];
      case RollbackStored =>
        rejections := Increment(rejections);
        calls := calls[c := Rejected];
    }

    /** Executor thread `w` takes the receiver mutex, if it is free. */
    method LockReceiver(w: nat) returns (locked: bool)
      modifies this
      ensures locked <==> Step(old(Snapshot()), Lock(w)).Some?
      ensures Snapshot() == if locked then Step(old(Snapshot()), Lock(w)).value else old(Snapshot())
    {
      locked := w < |workers| && workers[w].Idle? && lock.None?;
      if locked {
        lock := Some(w);
        workers := workers[w := Waiting];
      }
    }

    /** The list pop inside `blocking_recv`; false while the channel is empty. */
    method BlockingRecv(w: nat) returns (popped: bool)
      modifies this
      ensures popped <==> Step(old(Snapshot()), Receive(w)).Some?
      ensures Snapshot() == if popped then Step(old(Snapshot()), Receive(w)).value else old(Snapshot())
    {
      popped := w < |workers| && workers[w].Waiting? && |queue| > 0 && queue[0] < |calls|;
      if popped {
        var c := queue[0];
        queue := queue[1..];
        received := received + [c];
        workers := workers[w := Working(c)];
        calls := calls[c := Popped(w)];
      }
    }

    /** Inside the receiver mutex: the receive returns its slot and the job, then the guard is dropped. */
    method ReceiveStep(w: nat, c: nat)
      requires w < |workers| && workers[w] == Working(c) && c < |calls| && HoldsLock(calls[c])
      modifies this
      ensures Some(Snapshot()) == WorkStep(old(Snapshot()), w)
    {
      match calls[c]
      case Popped(_) =>
        slots := slots + 1;
        calls := calls[c := Phase.Received(w)];
      case Received(_) =>
        lock := None;
        calls := calls[c := Unlocked(w)];
    }

    /** After the answer: the count, the gauge, and last the permit. */
    method SettleStep(w: nat, c: nat)
      requires w < |workers| && workers[w] == Working(c) && c < |calls|
      requires calls[c].Answered? || calls[c].Discounted? || calls[c].Stored?
      modifies this
      ensures Some(Snapshot()) == WorkStep(old(Snapshot()), w)
    {
      hide Decrement, SaturatingPredecessor;
      var p := calls[c];
      match p
      case Answered(_) =>
        calls := calls[c := Discounted(w, SaturatingPredecessor(current))];
        current := Decrement(current);
      case Discounted(_, after) =>
        gauge := after;
        calls := calls[c := Stored(w)];
      case Stored(_) =>
        permits := permits + 1;
        workers := workers[w := Idle];
        calls := calls[c := Finished];
    }

    /** The next atomic operation of executor thread `w` on the job it holds. */
    method WorkerStep(w: nat) returns (moved: bool)
      requires w < |workers|
      modifies this
      ensures moved <==> WorkStep(old(Snapshot()), w).Some?
      ensures Snapshot() == if moved then WorkStep(old(Snapshot()), w).value else old(Snapshot())
    {
      moved := workers[w].Working? && workers[w].call < |calls|;
      if !moved { return; }
      var c := workers[w].call;
      match calls[c]
      case Popped(_) => ReceiveStep(w, c);
      case Received(_) => ReceiveStep(w, c);
      case Unlocked(_) =>
        classified := classified + [c];
        calls := calls[c := Classified(w)];
      case Classified(_) =>
        answers := answers + [c];
        calls := calls[c := Answered(w)];
      case Answered(_) => SettleStep(w, c);
      case Discounted(_, _) => SettleStep(w, c);
      case Stored(_) => SettleStep(w, c);
      case _ =>
        moved := false;
    }
  }
}
