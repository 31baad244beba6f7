/** Workers claiming sequence numbers from one shared atomic counter, under any interleaving. */
module Claiming {
  import opened Common

  datatype Worker = Ready | Issuing(sequence: nat) | Overrun | Stopped

  /** `issued` and `finished` list sequences in the order they were claimed and completed. */
  datatype State = State(next: nat, workers: seq<Worker>, issued: seq<nat>, finished: seq<nat>)

  /** A claim is one `fetch_add` with its bounds check; a worker may also stop at its deadline. */
  datatype Action = Claim(w: nat) | Finish(w: nat) | Stop(w: nat)

  function Init(workers: nat): State {
    State(0, seq(workers, _ => Ready), [], [])
  }

  predicate Enabled(s: State, a: Action) {
    a.w < |s.workers| && (if a.Finish? then s.workers[a.w].Issuing? else s.workers[a.w].Ready?)
  }

  /** One step; a step that is not enabled changes nothing. */
  function Step(total: nat, s: State, a: Action): State {
    if !Enabled(s, a) then s else
    match a
    case Claim(w) =>
      var current := s.next;
      if current >= total
      then s.(next := (current + 1) % WORD, workers := s.workers[w := Overrun])
      else s.(next := (current + 1) % WORD, workers := s.workers[w := Issuing(current)], issued := s.issued + [current])
    case Finish(w) =>
      s.(workers := s.workers[w := Ready], finished := s.finished + [s.workers[w].sequence])
    case Stop(w) =>
      s.(workers := s.workers[w := Stopped])
  }

  function Run(total: nat, s: State, actions: seq<Action>): State {
    if |actions| == 0 then s
    else Step(total, Run(total, s, actions[..|actions| - 1]), actions[|actions| - 1])
  }

  // ----- the invariant -----

  function OverrunWeight(w: Worker): nat { if w.Overrun? then 1 else 0 }

  ghost function HeldBy(w: Worker): multiset<nat> {
    if w.Issuing? then multiset{w.sequence} else multiset{}
  }

  ghost function Held(workers: seq<Worker>, n: nat): multiset<nat>
    requires n <= |workers|
  {
    if n == 0 then multiset{} else Held(workers, n - 1) + HeldBy(workers[n - 1])
  }

  ghost function InFlight(workers: seq<Worker>): multiset<nat> { Held(workers, |workers|) }

  /** Claims came out in order, without gaps, and stop at the total. */
  ghost predicate InOrder(total: nat, s: State) {
    && |s.issued| <= total
    && (forall i :: 0 <= i < |s.issued| ==> s.issued[i] == i)
    && (Sum(s.workers, OverrunWeight) > 0 ==> |s.issued| == total)
    && s.next == (|s.issued| + Sum(s.workers, OverrunWeight)) % WORD
  }

  /** Nothing issued is lost or invented. */
  ghost predicate NothingLost(s: State) {
    multiset(s.issued) == multiset(s.finished) + InFlight(s.workers)
  }

  ghost predicate Inv(total: nat, s: State) {
    InOrder(total, s) && NothingLost(s)
  }

  /** Where the counter cannot come around again. */
  predicate NoWrap(total: nat, workers: nat) {
    total < WORD && total + workers <= WORD
  }

  lemma {:induction false} HeldUpdate(workers: seq<Worker>, n: nat, w: nat, x: Worker)
    requires w < n <= |workers|
    ensures Held(workers[w := x], n) + HeldBy(workers[w]) == Held(workers, n) + HeldBy(x)
  {
    hide HeldBy;
    if w == n - 1 {
      HeldAgrees(workers, workers[w := x], n - 1);
    } else {
      HeldUpdate(workers, n - 1, w, x);
      var last := HeldBy(workers[n - 1]);
      assert workers[w := x][n - 1] == workers[n - 1];
      assert Held(workers[w := x], n - 1) + last + HeldBy(workers[w])
          == (Held(workers[w := x], n - 1) + HeldBy(workers[w])) + last;
      assert Held(workers, n - 1) + HeldBy(x) + last == Held(workers, n - 1) + last + HeldBy(x);
    }
  }

  lemma {:induction false} HeldAgrees(a: seq<Worker>, b: seq<Worker>, n: nat)
    requires n <= |a| && n <= |b| && forall i :: 0 <= i < n ==> a[i] == b[i]
    ensures Held(a, n) == Held(b, n)
  {
    if n > 0 { HeldAgrees(a, b, n - 1); }
  }

  lemma {:induction false} WorkersBound(workers: seq<Worker>, n: nat, w: nat)
    requires w < |workers| && n <= |workers| && !workers[w].Overrun?
    ensures SumTo(workers, n, OverrunWeight) <= if w < n then n - 1 else n
  {
    if n > 0 { WorkersBound(workers, n - 1, w); }
  }

  lemma StepKeepsOrder(total: nat, s: State, a: Action)
    requires NoWrap(total, |s.workers|) && InOrder(total, s)
    ensures InOrder(total, Step(total, s, a))
  {
    if Enabled(s, a) {
      var t := Step(total, s, a);
      WorkersBound(s.workers, |s.workers|, a.w);
      SumUpdate(s.workers, a.w, t.workers[a.w], OverrunWeight);
    }
  }

  lemma StepKeepsKept(total: nat, s: State, a: Action)
    requires NothingLost(s)
    ensures NothingLost(Step(total, s, a))
  {
    hide InFlight;
    if Enabled(s, a) {
      var t := Step(total, s, a);
      assert t.workers == s.workers[a.w := t.workers[a.w]];
      FlightMoves(s.workers, a.w, t.workers[a.w]);
      if a.Finish? {
        var q := s.workers[a.w].sequence;
        assert multiset(t.finished) == multiset(s.finished) + multiset{q};
        assert InFlight(t.workers) + multiset{q} == InFlight(s.workers);
      } else if a.Claim? && s.next < total {
        assert multiset(t.issued) == multiset(s.issued) + multiset{s.next};
        assert InFlight(t.workers) == InFlight(s.workers) + multiset{s.next};
      } else {
        PlusNothing(InFlight(t.workers));
        PlusNothing(InFlight(s.workers));
      }
    }
  }

  lemma PlusNothing(m: multiset<nat>)
    ensures m + multiset{} == m
  {
  }

  lemma FlightMoves(workers: seq<Worker>, w: nat, x: Worker)
    requires w < |workers|
    ensures InFlight(workers[w := x]) + HeldBy(workers[w]) == InFlight(workers) + HeldBy(x)
  {
    HeldUpdate(workers, |workers|, w, x);
  }

  lemma {:induction false} NothingHeld(n: nat, workers: seq<Worker>)
    requires n <= |workers| && forall i :: 0 <= i < n ==> !workers[i].Issuing?
    ensures Held(workers, n) == multiset{}
  {
    if n > 0 { NothingHeld(n - 1, workers); }
  }

  lemma {:induction false} RunKeepsInv(total: nat, workers: nat, actions: seq<Action>)
    requires NoWrap(total, workers)
    ensures Inv(total, Run(total, Init(workers), actions))
    ensures |Run(total, Init(workers), actions).workers| == workers
  {
    hide InOrder, NothingLost, Step;
    if |actions| == 0 {
      InitHolds(total, workers);
    } else {
      var before := Run(total, Init(workers), actions[..|actions| - 1]);
      RunKeepsInv(total, workers, actions[..|actions| - 1]);
      StepKeepsOrder(total, before, actions[|actions| - 1]);
      StepKeepsKept(total, before, actions[|actions| - 1]);
      SameWorkers(total, before, actions[|actions| - 1]);
    }
  }

  lemma SameWorkers(total: nat, s: State, a: Action)
    ensures |Step(total, s, a).workers| == |s.workers|
  {
  }

  lemma InitHolds(total: nat, workers: nat)
    ensures Inv(total, Init(workers))
  {
    var s := Init(workers);
    SumToZero(s.workers, workers, OverrunWeight);
    NothingHeld(workers, s.workers);
  }

  // ----- claims are exact -----

  /** In every interleaving the sequences claimed are 0, 1, 2, ... below the total, each once. */
  lemma ClaimsInOrder(total: nat, workers: nat, actions: seq<Action>)
    requires NoWrap(total, workers)
    ensures var s := Run(total, Init(workers), actions); s.issued == UpTo(|s.issued|) && |s.issued| <= total
  {
    RunKeepsInv(total, workers, actions);
  }

  ghost predicate Quiet(s: State) {
    forall w :: 0 <= w < |s.workers| ==> s.workers[w].Overrun? || s.workers[w].Stopped?
  }

  lemma {:induction false} SomeOverrun(workers: seq<Worker>, n: nat, w: nat)
    requires w < n <= |workers| && workers[w].Overrun?
    ensures SumTo(workers, n, OverrunWeight) > 0
  {
    if w < n - 1 { SomeOverrun(workers, n - 1, w); }
  }

  /** When all workers have run past the end, every sequence below the total was finished exactly once. */
  lemma AllFinishedOnce(total: nat, s: State)
    requires NoWrap(total, |s.workers|) && Inv(total, s) && |s.workers| > 0
    requires forall w :: 0 <= w < |s.workers| ==> s.workers[w].Overrun?
    ensures s.issued == UpTo(total) && multiset(s.finished) == multiset(UpTo(total))
  {
    SomeOverrun(s.workers, |s.workers|, 0);
    NothingHeld(|s.workers|, s.workers);
    assert s.issued == UpTo(total);
  }

  /** However the workers stopped, the counter capped at the total is the number of sequences finished,
      and a worker overran exactly when the rows may have run out. */
  lemma ClaimedIsFinished(total: nat, s: State)
    requires total + |s.workers| < WORD && Inv(total, s) && Quiet(s)
    ensures Min(s.next, total) == |s.issued| == |s.finished|
    ensures (exists w :: 0 <= w < |s.workers| && s.workers[w].Overrun?) ==> |s.finished| == total
  {
    NothingHeld(|s.workers|, s.workers);
    assert |multiset(s.issued)| == |s.issued| && |multiset(s.finished)| == |s.finished|;
    OverrunAtMost(s.workers, |s.workers|);
    if w :| 0 <= w < |s.workers| && s.workers[w].Overrun? { SomeOverrun(s.workers, |s.workers|, w); }
  }

  lemma {:induction false} OverrunAtMost(workers: seq<Worker>, n: nat)
    requires n <= |workers|
    ensures SumTo(workers, n, OverrunWeight) <= n
  {
    if n > 0 { OverrunAtMost(workers, n - 1); }
  }

  // ----- every run has the same length -----

  function Rank(w: Worker): nat {
    match w
    case Ready => 1
    case Issuing(_) => 2
    case _ => 0
  }

  function Remaining(total: nat, s: State): int {
    2 * (total - |s.issued|) + Sum(s.workers, Rank)
  }

  /** Every enabled step uses exactly one unit of work. */
  lemma StepUsesOne(total: nat, s: State, a: Action)
    requires Enabled(s, a)
    ensures Remaining(total, Step(total, s, a)) == Remaining(total, s) - 1
  {
    var t := Step(total, s, a);
    SumUpdate(s.workers, a.w, t.workers[a.w], Rank);
  }

  ghost predicate AllEnabled(total: nat, s: State, actions: seq<Action>) {
    forall i :: 0 <= i < |actions| ==> Enabled(Run(total, s, actions[..i]), actions[i])
  }

  /** So the loop always ends, and after exactly 2 * total + workers steps when nobody stops early. */
  lemma {:induction false} RunLength(total: nat, s: State, actions: seq<Action>)
    requires AllEnabled(total, s, actions)
    ensures Remaining(total, Run(total, s, actions)) + |actions| == Remaining(total, s)
  {
    hide Step, Enabled, Remaining;
    if |actions| > 0 {
      var n := |actions| - 1;
      forall i | 0 <= i < n ensures Enabled(Run(total, s, actions[..n][..i]), actions[..n][i]) {
        assert actions[..n][..i] == actions[..i];
      }
      RunLength(total, s, actions[..n]);
      StepUsesOne(total, Run(total, s, actions[..n]), actions[n]);
    }
  }

  lemma {:induction false} ReadyRanks(n: nat, workers: seq<Worker>)
    requires n <= |workers| && forall i :: 0 <= i < n ==> workers[i].Ready?
    ensures SumTo(workers, n, Rank) == n
  {
    if n > 0 { ReadyRanks(n - 1, workers); }
  }

  lemma FullRunLength(total: nat, workers: nat, actions: seq<Action>)
    requires NoWrap(total, workers) && workers > 0 && AllEnabled(total, Init(workers), actions)
    requires var s := Run(total, Init(workers), actions); forall w :: 0 <= w < |s.workers| ==> s.workers[w].Overrun?
    ensures |actions| == 2 * total + workers
  {
    hide Inv, Step, Enabled, AllEnabled, NoWrap;
    var s := Run(total, Init(workers), actions);
    RunLength(total, Init(workers), actions);
    RunKeepsInv(total, workers, actions);
    AllFinishedOnce(total, s);
    ReadyRanks(workers, Init(workers).workers);
    SumToZero(s.workers, |s.workers|, Rank);
  }

  // ----- the exact condition -----

  /** One worker claims and finishes `n` sequences by itself. */
  function Solo(n: nat): seq<Action> {
    if n == 0 then [] else Solo(n - 1) + [Claim(0), Finish(0)]
  }

  function Overruns(n: nat): seq<Action> {
    if n == 0 then [] else Overruns(n - 1) + [Claim(n - 1)]
  }

  lemma RunTwo(total: nat, s: State, actions: seq<Action>, a: Action, b: Action)
    ensures Run(total, s, actions + [a, b]) == Step(total, Step(total, Run(total, s, actions), a), b)
  {
    hide Step;
    assert (actions + [a, b])[..|actions| + 1] == actions + [a];
    assert (actions + [a])[..|actions|] == actions;
  }

  lemma RunOne(total: nat, s: State, actions: seq<Action>, a: Action)
    ensures Run(total, s, actions + [a]) == Step(total, Run(total, s, actions), a)
  {
    assert (actions + [a])[..|actions|] == actions;
  }

  lemma {:induction false} SoloState(total: nat, workers: nat, n: nat)
    requires n <= total < WORD && workers > 0
    ensures Run(total, Init(workers), Solo(n)) == State(n, Init(workers).workers, UpTo(n), UpTo(n))
  {
    if n > 0 {
      hide Step, Run, UpTo;
      SoloState(total, workers, n - 1);
      RunTwo(total, Init(workers), Solo(n - 1), Claim(0), Finish(0));
      SoloStep(total, workers, n);
    }
  }

  lemma SoloStep(total: nat, workers: nat, n: nat)
    requires 0 < n <= total < WORD && workers > 0
    ensures var s := State(n - 1, Init(workers).workers, UpTo(n - 1), UpTo(n - 1));
      Step(total, Step(total, s, Claim(0)), Finish(0)) == State(n, Init(workers).workers, UpTo(n), UpTo(n))
  {
    var ready := Init(workers).workers;
    assert UpTo(n - 1) + [n - 1] == UpTo(n);
    assert ready[0 := Issuing(n - 1)][0 := Ready] == ready;
  }

  function Overran(workers: nat, k: nat): seq<Worker>
    requires k <= workers
  {
    seq(workers, i => if i < k then Overrun else Ready)
  }

  lemma {:induction false} OverranState(total: nat, workers: nat, k: nat)
    requires 0 < total < WORD && k <= workers && total + k <= WORD
    ensures var s := State(total, Init(workers).workers, UpTo(total), UpTo(total));
      Run(total, s, Overruns(k)) == State((total + k) % WORD, Overran(workers, k), UpTo(total), UpTo(total))
  {
    hide Step, Overran, UpTo, Init;
    var s := State(total, Init(workers).workers, UpTo(total), UpTo(total));
    if k == 0 {
      OverranNone(workers);
      assert Run(total, s, Overruns(0)) == s;
    } else {
      hide Run;
      OverranState(total, workers, k - 1);
      RunOne(total, s, Overruns(k - 1), Claim(k - 1));
      OverrunStep(total, workers, k);
    }
  }

  lemma OverranNone(workers: nat)
    ensures Overran(workers, 0) == Init(workers).workers
  {
  }

  lemma OverrunStep(total: nat, workers: nat, k: nat)
    requires 0 < total < WORD && 0 < k <= workers && total + k <= WORD
    ensures Step(total, State((total + k - 1) % WORD, Overran(workers, k - 1), UpTo(total), UpTo(total)), Claim(k - 1))
         == State((total + k) % WORD, Overran(workers, k), UpTo(total), UpTo(total))
  {
    assert Overran(workers, k - 1)[k - 1 := Overrun] == Overran(workers, k);
  }

  lemma {:induction false} RunConcat(total: nat, s: State, a: seq<Action>, b: seq<Action>)
    ensures Run(total, s, a + b) == Run(total, Run(total, s, a), b)
  {
    hide Step;
    if |b| == 0 {
      assert a + b == a;
    } else {
      var n := |b| - 1;
      RunConcat(total, s, a, b[..n]);
      assert (a + b)[..|a + b| - 1] == a + b[..n];
    }
  }

  /** Past the end of the counter, some interleaving issues sequence 0 a second time. */
  lemma WrapRepeats(total: nat, workers: nat) returns (actions: seq<Action>)
    requires 0 < total < WORD && total + workers > WORD
    ensures !Distinct(Run(total, Init(workers), actions).issued)
  {
    var k := WORD - total;
    actions := Solo(total) + Overruns(k) + [Claim(k)];
    SoloState(total, workers, total);
    OverranState(total, workers, k);
    RunConcat(total, Init(workers), Solo(total), Overruns(k));
    RunOne(total, Init(workers), Solo(total) + Overruns(k), Claim(k));
    var s := State(0, Overran(workers, k), UpTo(total), UpTo(total));
    assert Run(total, Init(workers), Solo(total) + Overruns(k)) == s;
    var issued := Step(total, s, Claim(k)).issued;
    assert issued == UpTo(total) + [0] && issued[0] == issued[total];
  }

  lemma {:induction false} NothingBelowZero(s: State, actions: seq<Action>)
    requires s.issued == []
    ensures Run(0, s, actions).issued == []
  {
    if |actions| > 0 { NothingBelowZero(s, actions[..|actions| - 1]); }
  }

  /** No sequence is ever issued twice, in any interleaving, exactly when the counter cannot wrap. */
  lemma OnceExactly(total: nat, workers: nat)
    requires total < WORD
    ensures (forall actions :: Distinct(Run(total, Init(workers), actions).issued)) <==>
            total == 0 || NoWrap(total, workers)
  {
    hide Run, Distinct;
    if total == 0 {
      forall actions ensures Distinct(Run(total, Init(workers), actions).issued) {
        NothingBelowZero(Init(workers), actions);
        DistinctUpTo(0);
      }
    } else if NoWrap(total, workers) {
      forall actions ensures Distinct(Run(total, Init(workers), actions).issued) {
        ClaimsInOrder(total, workers, actions);
        DistinctUpTo(|Run(total, Init(workers), actions).issued|);
      }
    } else {
      var actions := WrapRepeats(total, workers);
    }
  }

  lemma DistinctUpTo(n: nat)
    ensures Distinct(UpTo(n))
  {
  }
}
