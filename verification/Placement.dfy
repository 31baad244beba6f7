/** The placement verdict: what a PASS of the topology preflight means about every pod's CPUs. */
module Placement {
  import opened Common
  import opened CpuList
  import opened Topology

  const SCHEMA_VERSION := 1

  /** A pod as recorded; None stands for a missing key or a value of the wrong type. */
  datatype RawPod = RawPod(name: Option<string>, node: Option<string>, ready: bool, cpuset: Option<string>)

  datatype Snapshot = Snapshot(schemaVersion: int, nodes: map<string, RawNode>, pods: seq<RawPod>)

  datatype Violation =
    | IncompleteSiblingSet(pod: string)
    | HousekeepingCpuOverlap(pod: string)
    | HousekeepingCoreShared(pod: string)
    | TargetCpuOverlap(left: string, right: string)
    | TargetCoreShared(left: string, right: string)

  datatype Verdict = PASS | FAIL | INVALID

  datatype Report = Report(verdict: Verdict, placementVerdict: Verdict, exitCode: int, violations: seq<Violation>)

  // ----- what the evidence says, read directly -----

  function OnlineOf(raw: RawNode): set<nat> { match Given(raw.online) case Some(s) => s case None => {} }

  function ReservedOf(raw: RawNode): set<nat> { match Given(raw.reserved) case Some(s) => s case None => {} }

  function GroupsOf(raw: RawNode): seq<set<nat>> {
    match raw.groups
    case None => []
    case Some(texts) => match GroupsTo(texts, |texts|) case Some(gs) => gs case None => []
  }

  function CpusetOf(pod: RawPod): set<nat> { match Given(pod.cpuset) case Some(s) => s case None => {} }

  ghost predicate PodEvidence(s: Snapshot, i: nat)
    requires i < |s.pods|
  {
    var pod := s.pods[i];
    && pod.name.Some? && pod.name.value != ""
    && (forall j :: 0 <= j < i ==> s.pods[j].name != pod.name)
    && pod.ready
    && pod.node.Some? && pod.node.value in s.nodes && NodeWellFormed(s.nodes[pod.node.value])
    && Given(pod.cpuset).Some? && CpusetOf(pod) <= OnlineOf(s.nodes[pod.node.value])
  }

  /** All evidence is present and well formed. */
  ghost predicate Evidence(s: Snapshot) {
    && s.schemaVersion == SCHEMA_VERSION
    && s.nodes != map[] && (forall n :: n in s.nodes ==> NodeWellFormed(s.nodes[n]))
    && |s.pods| > 0 && (forall i :: 0 <= i < |s.pods| ==> PodEvidence(s, i))
  }

  ghost predicate Authoritative(s: Snapshot) {
    forall n :: n in s.nodes ==> s.nodes[n].authoritative
  }

  /** The cpuset is a union of whole sibling groups, none of which holds a reserved CPU. */
  ghost predicate WholeCores(groups: seq<set<nat>>, reserved: set<nat>, cpuset: set<nat>) {
    forall k :: 0 <= k < |groups| ==> groups[k] !! cpuset || (groups[k] <= cpuset && groups[k] !! reserved)
  }

  /** No core, and so no CPU, serves both. */
  ghost predicate Apart(groups: seq<set<nat>>, a: set<nat>, b: set<nat>) {
    forall k :: 0 <= k < |groups| ==> groups[k] !! a || groups[k] !! b
  }

  /** Group `k` is partly inside the cpuset and partly outside. */
  ghost predicate SplitsGroup(groups: seq<set<nat>>, cpuset: set<nat>, k: int) {
    0 <= k < |groups| && !(groups[k] !! cpuset) && !(groups[k] <= cpuset)
  }

  /** Group `k` holds CPUs of both. */
  ghost predicate Joins(groups: seq<set<nat>>, a: set<nat>, b: set<nat>, k: int) {
    0 <= k < |groups| && !(groups[k] !! a) && !(groups[k] !! b)
  }

  /** What is wrong with one pod's cpuset, group by group. */
  ghost predicate PodFinds(groups: seq<set<nat>>, reserved: set<nat>, cpuset: set<nat>, name: string, v: Violation) {
    match v
    case IncompleteSiblingSet(pod) =>
      pod == name && exists k :: SplitsGroup(groups, cpuset, k)
    case HousekeepingCpuOverlap(pod) => pod == name && cpuset * reserved != {}
    case HousekeepingCoreShared(pod) =>
      pod == name && exists k :: Joins(groups, cpuset, reserved, k)
    case _ => false
  }

  /** What is wrong between two pods of one node; sharing a CPU hides sharing a core. */
  ghost predicate PairFinds(groups: seq<set<nat>>, a: set<nat>, b: set<nat>, left: string, right: string,
                            v: Violation)
  {
    match v
    case TargetCpuOverlap(l, r) => l == left && r == right && a * b != {}
    case TargetCoreShared(l, r) =>
      l == left && r == right && a * b == {} && exists k :: Joins(groups, a, b, k)
    case _ => false
  }

  /** Pod `i`, itself with complete evidence, has the fault `v`. */
  ghost predicate PodFault(s: Snapshot, i: int, v: Violation) {
    && 0 <= i < |s.pods| && PodEvidence(s, i)
    && var pod, raw := s.pods[i], s.nodes[s.pods[i].node.value];
    PodFinds(GroupsOf(raw), ReservedOf(raw), CpusetOf(pod), pod.name.value, v)
  }

  /** Pods `i` and `j`, both with complete evidence and on one node, have the fault `v`. */
  ghost predicate PairFault(s: Snapshot, i: int, j: int, v: Violation) {
    && 0 <= i < j < |s.pods| && PodEvidence(s, i) && PodEvidence(s, j) && s.pods[i].node == s.pods[j].node
    && PairFinds(GroupsOf(s.nodes[s.pods[i].node.value]), CpusetOf(s.pods[i]), CpusetOf(s.pods[j]),
                 s.pods[i].name.value, s.pods[j].name.value, v)
  }

  ghost predicate Faulty(s: Snapshot, v: Violation) {
    (exists i :: PodFault(s, i, v)) || exists i, j :: PairFault(s, i, j, v)
  }

  ghost predicate CleanPod(s: Snapshot, i: nat)
    requires i < |s.pods|
  {
    var pod := s.pods[i];
    && pod.node.Some? && pod.node.value in s.nodes
    && var raw := s.nodes[pod.node.value];
    WholeCores(GroupsOf(raw), ReservedOf(raw), CpusetOf(pod))
  }

  ghost predicate CleanPair(s: Snapshot, i: nat, j: nat)
    requires i < |s.pods| && j < |s.pods|
  {
    var left, right := s.pods[i], s.pods[j];
    left.node.Some? && left.node.value in s.nodes && left.node == right.node ==>
      Apart(GroupsOf(s.nodes[left.node.value]), CpusetOf(left), CpusetOf(right))
  }

  ghost predicate CleanPlacement(s: Snapshot) {
    && (forall i :: 0 <= i < |s.pods| ==> CleanPod(s, i))
    && (forall i, j :: 0 <= i < j < |s.pods| ==> CleanPair(s, i, j))
  }

  // ----- reading groups through the CPU map -----

  /** A group meets a cpuset exactly when it is the group of one of its CPUs. */
  lemma TouchedGroup(state: NodeState, raw: RawNode, cpuset: set<nat>, k: nat)
    requires Describes(state, raw) && cpuset <= state.online && k < |state.groups|
    ensures !(state.groups[k] !! cpuset) <==> exists cpu :: cpu in cpuset && state.groupOf[cpu] == state.groups[k]
  {
    hide GroupsTo, Given;
    forall cpu | cpu in cpuset && cpu in state.groups[k] ensures state.groupOf[cpu] == state.groups[k] {
      var m :| 0 <= m < |state.groups| && state.groups[m] == state.groupOf[cpu];
    }
    if !(state.groups[k] !! cpuset) {
      var cpu :| cpu in state.groups[k] && cpu in cpuset;
    }
  }

  ghost predicate Incomplete(state: NodeState, cpuset: set<nat>)
    requires cpuset <= state.groupOf.Keys
  {
    exists cpu :: cpu in cpuset && !(state.groupOf[cpu] <= cpuset)
  }

  ghost predicate SharesReserved(state: NodeState, cpuset: set<nat>)
    requires cpuset <= state.groupOf.Keys
  {
    exists cpu :: cpu in cpuset && !(state.groupOf[cpu] !! state.reserved)
  }

  ghost predicate SharesCore(state: NodeState, a: set<nat>, b: set<nat>)
    requires a <= state.groupOf.Keys && b <= state.groupOf.Keys
  {
    exists x, y :: x in a && y in b && state.groupOf[x] == state.groupOf[y]
  }

  lemma IncompleteByGroup(state: NodeState, raw: RawNode, cpuset: set<nat>)
    requires Describes(state, raw) && cpuset <= state.online
    ensures Incomplete(state, cpuset) <==> exists k :: SplitsGroup(state.groups, cpuset, k)
  {
    if Incomplete(state, cpuset) {
      var cpu :| cpu in cpuset && !(state.groupOf[cpu] <= cpuset);
      var k :| 0 <= k < |state.groups| && state.groups[k] == state.groupOf[cpu];
      assert SplitsGroup(state.groups, cpuset, k);
    }
    if k :| SplitsGroup(state.groups, cpuset, k) { TouchedGroup(state, raw, cpuset, k); }
  }

  lemma ReservedByGroup(state: NodeState, raw: RawNode, cpuset: set<nat>)
    requires Describes(state, raw) && cpuset <= state.online
    ensures SharesReserved(state, cpuset) <==> exists k :: Joins(state.groups, cpuset, state.reserved, k)
    ensures cpuset * state.reserved != {} ==> SharesReserved(state, cpuset)
  {
    if SharesReserved(state, cpuset) {
      var cpu :| cpu in cpuset && !(state.groupOf[cpu] !! state.reserved);
      var k :| 0 <= k < |state.groups| && state.groups[k] == state.groupOf[cpu];
      assert Joins(state.groups, cpuset, state.reserved, k);
    }
    if k :| Joins(state.groups, cpuset, state.reserved, k) { TouchedGroup(state, raw, cpuset, k); }
    if cpu :| cpu in cpuset * state.reserved { assert cpu in cpuset && cpu in state.groupOf[cpu]; }
  }

  /** Reading the map CPU by CPU finds a fault exactly when the cpuset is not a union of clean whole groups. */
  lemma WholeCoresByCpu(state: NodeState, raw: RawNode, cpuset: set<nat>)
    requires Describes(state, raw) && cpuset <= state.online
    ensures WholeCores(state.groups, state.reserved, cpuset) <==>
            !Incomplete(state, cpuset) && !SharesReserved(state, cpuset)
    ensures cpuset * state.reserved != {} ==> SharesReserved(state, cpuset)
  {
    IncompleteByGroup(state, raw, cpuset);
    ReservedByGroup(state, raw, cpuset);
    hide Describes, Incomplete, SharesReserved;
    WholeCoresByGroup(state.groups, state.reserved, cpuset);
  }

  lemma WholeCoresByGroup(groups: seq<set<nat>>, reserved: set<nat>, cpuset: set<nat>)
    ensures WholeCores(groups, reserved, cpuset) <==>
            !(exists k :: SplitsGroup(groups, cpuset, k)) && !(exists k :: Joins(groups, cpuset, reserved, k))
  {
    if !(exists k :: SplitsGroup(groups, cpuset, k)) && !(exists k :: Joins(groups, cpuset, reserved, k)) {
      forall k | 0 <= k < |groups| ensures groups[k] !! cpuset || (groups[k] <= cpuset && groups[k] !! reserved) {
        assert !SplitsGroup(groups, cpuset, k) && !Joins(groups, cpuset, reserved, k);
      }
    }
  }

  lemma ApartByCpu(state: NodeState, raw: RawNode, a: set<nat>, b: set<nat>)
    requires Describes(state, raw) && a <= state.online && b <= state.online
    ensures Apart(state.groups, a, b) <==> !SharesCore(state, a, b)
    ensures SharesCore(state, a, b) <==> exists k :: Joins(state.groups, a, b, k)
    ensures a * b != {} ==> SharesCore(state, a, b)
  {
    if SharesCore(state, a, b) {
      var x, y :| x in a && y in b && state.groupOf[x] == state.groupOf[y];
      var k :| 0 <= k < |state.groups| && state.groups[k] == state.groupOf[x];
      assert Joins(state.groups, a, b, k);
    }
    if k :| Joins(state.groups, a, b, k) {
      TouchedGroup(state, raw, a, k);
      TouchedGroup(state, raw, b, k);
    }
    if x :| x in a * b { assert x in a && x in b && state.groupOf[x] == state.groupOf[x]; }
    hide Describes, SharesCore;
    ApartByGroup(state.groups, a, b);
  }

  lemma ApartByGroup(groups: seq<set<nat>>, a: set<nat>, b: set<nat>)
    ensures Apart(groups, a, b) <==> !exists k :: Joins(groups, a, b, k)
  {
    if !exists k :: Joins(groups, a, b, k) {
      forall k | 0 <= k < |groups| ensures groups[k] !! a || groups[k] !! b { assert !Joins(groups, a, b, k); }
    }
  }

  // ----- the validator -----

  /** The states built for the well-formed nodes. */
  ghost predicate StatesOf(states: map<string, NodeState>, nodes: map<string, RawNode>) {
    && (forall n :: n in states <==> n in nodes && NodeWellFormed(nodes[n]))
    && (forall n :: n in states ==> Describes(states[n], nodes[n]))
  }

  method BuildNodes(nodes: map<string, RawNode>)
    returns (states: map<string, NodeState>, invalid: nat, ineligible: nat)
    ensures StatesOf(states, nodes)
    ensures invalid == |set n | n in nodes && !NodeWellFormed(nodes[n])|
    ensures ineligible == |set n | n in states && !nodes[n].authoritative|
  {
    hide NodeWellFormed, Describes;
    states, invalid, ineligible := map[], 0, 0;
    var todo := nodes.Keys;
    while todo != {}
      invariant todo <= nodes.Keys
      invariant forall n :: n in states <==> n in nodes.Keys - todo && NodeWellFormed(nodes[n])
      invariant forall n :: n in states ==> Describes(states[n], nodes[n])
      invariant invalid == |set n | n in nodes.Keys - todo && !NodeWellFormed(nodes[n])|
      invariant ineligible == |set n | n in states && !nodes[n].authoritative|
    {
      ghost var unfit := set n | n in nodes.Keys - todo && !NodeWellFormed(nodes[n]);
      ghost var inferred := set n | n in states && !nodes[n].authoritative;
      var name :| name in todo;
      todo := todo - {name};
      var state := BuildNode(nodes[name]);
      if state.None? {
        invalid := invalid + 1;
        assert (set n | n in nodes.Keys - todo && !NodeWellFormed(nodes[n])) == unfit + {name};
      } else {
        if !nodes[name].authoritative { ineligible := ineligible + 1; }
        states := states[name := state.value];
        assert (set n | n in nodes.Keys - todo && !NodeWellFormed(nodes[n])) == unfit;
        assert (set n | n in states && !nodes[n].authoritative)
            == if nodes[name].authoritative then inferred else inferred + {name};
      }
    }
    assert nodes.Keys - {} == nodes.Keys;
  }

  /** A finding, when there is one. */
  function Finding(holds: bool, v: Violation): (found: seq<Violation>)
    ensures found == [] <==> !holds
    ensures forall u :: u in found <==> holds && u == v
  {
    if holds then [v] else []
  }

  /** The CPUs whose group is not wholly inside the cpuset, and those whose group holds a reserved CPU. */
  function IncompleteCpus(state: NodeState, cpuset: set<nat>): (cpus: set<nat>)
    requires cpuset <= state.groupOf.Keys
    ensures cpus != {} <==> Incomplete(state, cpuset)
  {
    var cpus := set cpu | cpu in cpuset && !(state.groupOf[cpu] <= cpuset);
    assert Incomplete(state, cpuset) ==> cpus != {} by {
      if Incomplete(state, cpuset) {
        var cpu :| cpu in cpuset && !(state.groupOf[cpu] <= cpuset);
        assert cpu in cpus;
      }
    }
    assert cpus == {} || exists cpu :: cpu in cpus;
    cpus
  }

  function ReservedSharers(state: NodeState, cpuset: set<nat>): (cpus: set<nat>)
    requires cpuset <= state.groupOf.Keys
    ensures cpus != {} <==> SharesReserved(state, cpuset)
  {
    var cpus := set cpu | cpu in cpuset && !(state.groupOf[cpu] !! state.reserved);
    assert SharesReserved(state, cpuset) ==> cpus != {} by {
      if SharesReserved(state, cpuset) {
        var cpu :| cpu in cpuset && !(state.groupOf[cpu] !! state.reserved);
        assert cpu in cpus;
      }
    }
    assert cpus == {} || exists cpu :: cpu in cpus;
    cpus
  }

  function Touched(state: NodeState, cpuset: set<nat>): (groups: set<set<nat>>)
    requires cpuset <= state.groupOf.Keys
    ensures forall g :: g in groups <==> exists cpu :: cpu in cpuset && state.groupOf[cpu] == g
  {
    set cpu | cpu in cpuset :: state.groupOf[cpu]
  }

  lemma TouchedShared(state: NodeState, a: set<nat>, b: set<nat>)
    requires a <= state.groupOf.Keys && b <= state.groupOf.Keys
    ensures Touched(state, a) * Touched(state, b) != {} <==> SharesCore(state, a, b)
  {
    if SharesCore(state, a, b) {
      var x, y :| x in a && y in b && state.groupOf[x] == state.groupOf[y];
      assert state.groupOf[x] in Touched(state, a) * Touched(state, b);
    }
    if g :| g in Touched(state, a) * Touched(state, b) {
      var x :| x in a && state.groupOf[x] == g;
      var y :| y in b && state.groupOf[y] == g;
    }
  }

  /** The three per-pod findings, in order. */
  function PodList(name: string, incomplete: bool, overlap: bool, shared: bool): (found: seq<Violation>)
    ensures Distinct(found) && (found == [] <==> !incomplete && !overlap && !shared)
    ensures forall v :: v in found <==>
              (   (incomplete && v == IncompleteSiblingSet(name)) || (overlap && v == HousekeepingCpuOverlap(name))
               || (shared && v == HousekeepingCoreShared(name)))
  {
    Finding(incomplete, IncompleteSiblingSet(name)) + Finding(overlap, HousekeepingCpuOverlap(name))
    + Finding(shared, HousekeepingCoreShared(name))
  }

  /** The three per-pod findings, each reported exactly when it holds, and once. */
  method CheckPod(name: string, cpuset: set<nat>, state: NodeState, ghost raw: RawNode) returns (found: seq<Violation>)
    requires Describes(state, raw) && cpuset <= state.online
    ensures IncompleteSiblingSet(name) in found <==> Incomplete(state, cpuset)
    ensures HousekeepingCpuOverlap(name) in found <==> cpuset * state.reserved != {}
    ensures HousekeepingCoreShared(name) in found <==> SharesReserved(state, cpuset)
    ensures found == [] <==> WholeCores(state.groups, state.reserved, cpuset)
    ensures Distinct(found) && forall v :: v in found <==> PodFinds(state.groups, state.reserved, cpuset, name, v)
  {
    hide NodeWellFormed, WholeCores, IncompleteCpus, ReservedSharers, Incomplete, SharesReserved, PodList, Distinct,
         Joins, SplitsGroup, Describes;
    WholeCoresByCpu(state, raw, cpuset);
    IncompleteByGroup(state, raw, cpuset);
    ReservedByGroup(state, raw, cpuset);
    DescribedKeys(state, raw);
    found := PodList(name, IncompleteCpus(state, cpuset) != {}, cpuset * state.reserved != {},
                     ReservedSharers(state, cpuset) != {});
  }

  lemma DescribedKeys(state: NodeState, raw: RawNode)
    requires Describes(state, raw)
    ensures state.groupOf.Keys == state.online
  {
  }

  datatype Placed = Placed(name: string, node: string, cpuset: set<nat>)

  function PairList(left: string, right: string, overlap: bool, shared: bool): (found: seq<Violation>)
    ensures Distinct(found) && (found == [] <==> !overlap && !shared)
    ensures forall v :: v in found <==>
              (   (overlap && v == TargetCpuOverlap(left, right))
               || (shared && !overlap && v == TargetCoreShared(left, right)))
  {
    Finding(overlap, TargetCpuOverlap(left, right)) + Finding(shared && !overlap, TargetCoreShared(left, right))
  }

  /** Two pods on one node: an overlap of CPUs, or else of cores. */
  method CheckPair(left: Placed, right: Placed, state: NodeState, ghost raw: RawNode) returns (found: seq<Violation>)
    requires Describes(state, raw) && left.cpuset <= state.online && right.cpuset <= state.online
    ensures TargetCpuOverlap(left.name, right.name) in found <==> left.cpuset * right.cpuset != {}
    ensures TargetCoreShared(left.name, right.name) in found <==>
            left.cpuset * right.cpuset == {} && SharesCore(state, left.cpuset, right.cpuset)
    ensures found == [] <==> Apart(state.groups, left.cpuset, right.cpuset)
    ensures Distinct(found)
    ensures forall v :: v in found <==>
              PairFinds(state.groups, left.cpuset, right.cpuset, left.name, right.name, v)
  {
    hide NodeWellFormed, Apart, Touched, SharesCore, PairList, Distinct, Joins, Describes;
    ApartByCpu(state, raw, left.cpuset, right.cpuset);
    DescribedKeys(state, raw);
    TouchedShared(state, left.cpuset, right.cpuset);
    var overlap := left.cpuset * right.cpuset;
    var shared := Touched(state, left.cpuset) * Touched(state, right.cpuset);
    found := PairList(left.name, right.name, overlap != {}, shared != {});
  }

  /** The pod entries that became placements, given the node states. */
  ghost predicate Entry(p: Placed, s: Snapshot, i: nat)
    requires i < |s.pods|
  {
    && PodEvidence(s, i)
    && p == Placed(s.pods[i].name.value, s.pods[i].node.value, CpusetOf(s.pods[i]))
  }

  ghost predicate OnState(p: Placed, s: Snapshot, states: map<string, NodeState>) {
    p.node in states && p.node in s.nodes && p.cpuset <= states[p.node].online
  }

  lemma StateReads(state: NodeState, raw: RawNode)
    requires Describes(state, raw)
    ensures state.online == OnlineOf(raw) && state.reserved == ReservedOf(raw) && state.groups == GroupsOf(raw)
  {
  }

  /** The evidence checks on one pod, in order. */
  method AdmitPod(s: Snapshot, states: map<string, NodeState>, seen: set<string>, i: nat) returns (p: Option<Placed>)
    requires StatesOf(states, s.nodes) && i < |s.pods|
    requires forall name :: name in seen <==> name != "" && exists j :: 0 <= j < i && s.pods[j].name == Some(name)
    ensures p.Some? <==> PodEvidence(s, i)
    ensures p.Some? ==> Entry(p.value, s, i) && OnState(p.value, s, states)
  {
    hide NodeWellFormed, Describes, OnlineOf;
    var pod := s.pods[i];
    if pod.name.None? || pod.name.value == "" { return None; }
    if pod.name.value in seen { return None; }
    if !pod.ready { return None; }
    if pod.node.None? || pod.node.value !in states { return None; }
    var cpuset := Given(pod.cpuset);
    StateReads(states[pod.node.value], s.nodes[pod.node.value]);
    if cpuset.None? || !(cpuset.value <= states[pod.node.value].online) { return None; }
    return Some(Placed(pod.name.value, pod.node.value, cpuset.value));
  }

  /** Each placement is the entry of one pod with complete evidence, in the order of the pods, and every such
      pod has one. */
  ghost predicate Placing(s: Snapshot, n: nat, placed: seq<Placed>, at: seq<nat>)
    requires n <= |s.pods|
  {
    && |at| == |placed|
    && (forall k :: 0 <= k < |at| ==> at[k] < n && Entry(placed[k], s, at[k]))
    && (forall k, l :: 0 <= k < l < |at| ==> at[k] < at[l])
    && (forall i: nat :: i < n && PodEvidence(s, i) ==> i in at)
  }

  ghost predicate FaultBefore(s: Snapshot, n: nat, v: Violation) {
    exists i :: i < n && PodFault(s, i, v)
  }

  lemma FaultStep(s: Snapshot, n: nat, v: Violation)
    ensures FaultBefore(s, n + 1, v) <==> FaultBefore(s, n, v) || PodFault(s, n, v)
    ensures FaultBefore(s, n, v) ==> !PodFault(s, n, v)
  {
    hide PodFinds;
    if i :| i < n && PodFault(s, i, v) {
      if PodFault(s, n, v) { FaultNamesPod(s, i, n, v); }
    }
  }

  lemma FaultSteps(s: Snapshot, n: nat)
    ensures forall v :: FaultBefore(s, n + 1, v) <==> FaultBefore(s, n, v) || PodFault(s, n, v)
    ensures forall v :: FaultBefore(s, n, v) ==> !PodFault(s, n, v)
  {
    hide FaultBefore, PodFault;
    forall v ensures FaultBefore(s, n + 1, v) <==> FaultBefore(s, n, v) || PodFault(s, n, v)
      ensures FaultBefore(s, n, v) ==> !PodFault(s, n, v)
    {
      FaultStep(s, n, v);
    }
  }

  /** A fault names its pod, and names differ. */
  lemma FaultNamesPod(s: Snapshot, i: nat, n: nat, v: Violation)
    requires i < n && PodFault(s, i, v)
    ensures !PodFault(s, n, v)
  {
  }

  lemma DistinctJoin(a: seq<Violation>, b: seq<Violation>)
    requires Distinct(a) && Distinct(b) && forall v :: v in a ==> v !in b
    ensures Distinct(a + b)
  {
    assert forall j :: 0 <= j < |b| ==> b[j] !in a;
  }

  lemma PlacingStep(s: Snapshot, n: nat, placed: seq<Placed>, at: seq<nat>)
    requires n < |s.pods| && Placing(s, n, placed, at)
    ensures !PodEvidence(s, n) ==> Placing(s, n + 1, placed, at)
    ensures forall p :: Entry(p, s, n) ==> Placing(s, n + 1, placed + [p], at + [n])
  {
    hide PodEvidence;
  }

  /** The pods before the `n`-th without complete evidence. */
  ghost function Lacking(s: Snapshot, n: nat): set<int>
    requires n <= |s.pods|
  {
    set i | 0 <= i < n && !PodEvidence(s, i)
  }

  lemma LackingStep(s: Snapshot, n: nat)
    requires n < |s.pods|
    ensures |Lacking(s, n + 1)| == |Lacking(s, n)| + (if PodEvidence(s, n) then 0 else 1)
  {
    hide PodEvidence;
    assert Lacking(s, n + 1) == if PodEvidence(s, n) then Lacking(s, n) else Lacking(s, n) + {n};
  }

  method PlacePods(s: Snapshot, states: map<string, NodeState>)
    returns (placed: seq<Placed>, invalid: nat, violations: seq<Violation>, ghost at: seq<nat>)
    requires StatesOf(states, s.nodes)
    ensures invalid == |Lacking(s, |s.pods|)|
    ensures Placing(s, |s.pods|, placed, at)
    ensures forall k :: 0 <= k < |placed| ==> OnState(placed[k], s, states)
    ensures Distinct(violations) && forall v :: v in violations <==> FaultBefore(s, |s.pods|, v)
  {
    hide PodEvidence, Describes, Incomplete, SharesReserved, NodeWellFormed, Placing, FaultBefore, PodFinds, PodFault,
         Distinct, Entry, OnState, WholeCores, Lacking;
    placed, invalid, violations, at := [], 0, [], [];
    NothingPlaced(s);
    var seen: set<string> := {};
    for i := 0 to |s.pods|
      invariant forall name :: name in seen <==> name != "" && exists j :: 0 <= j < i && s.pods[j].name == Some(name)
      invariant invalid == |Lacking(s, i)|
      invariant Placing(s, i, placed, at)
      invariant forall k :: 0 <= k < |placed| ==> OnState(placed[k], s, states)
      invariant Distinct(violations) && forall v :: v in violations <==> FaultBefore(s, i, v)
    {
      var p := AdmitPod(s, states, seen, i);
      if s.pods[i].name.Some? && s.pods[i].name.value != "" { seen := seen + {s.pods[i].name.value}; }
      PlacingStep(s, i, placed, at);
      LackingStep(s, i);
      FaultSteps(s, i);
      if p.None? {
        NoEvidenceNoFault(s, i);
        invalid := invalid + 1;
      } else {
        Placeable(s, states, p.value);
        var found := CheckPod(p.value.name, p.value.cpuset, states[p.value.node], s.nodes[p.value.node]);
        PodFaultReads(s, states, i, p.value);
        DistinctJoin(violations, found);
        placed, at := placed + [p.value], at + [i];
        violations := violations + found;
      }
    }
  }

  lemma NothingPlaced(s: Snapshot)
    ensures Placing(s, 0, [], []) && Distinct<Violation>([]) && forall v :: !FaultBefore(s, 0, v)
    ensures |Lacking(s, 0)| == 0
  {
    assert Lacking(s, 0) == {};
  }

  lemma NoEvidenceNoFault(s: Snapshot, i: nat)
    requires i < |s.pods| && !PodEvidence(s, i)
    ensures forall v :: !PodFault(s, i, v)
  {
  }

  lemma Placeable(s: Snapshot, states: map<string, NodeState>, p: Placed)
    requires StatesOf(states, s.nodes) && OnState(p, s, states)
    ensures p.node in states && p.node in s.nodes && p.cpuset <= states[p.node].online
    ensures Describes(states[p.node], s.nodes[p.node])
  {
  }

  lemma PodFaultReads(s: Snapshot, states: map<string, NodeState>, i: nat, p: Placed)
    requires StatesOf(states, s.nodes) && i < |s.pods| && Entry(p, s, i) && OnState(p, s, states)
    ensures forall v :: PodFault(s, i, v) <==>
              PodFinds(states[p.node].groups, states[p.node].reserved, p.cpuset, p.name, v)
  {
    hide Describes, PodFinds, NodeWellFormed;
    StateReads(states[p.node], s.nodes[p.node]);
  }

  /** The `k`-th and `l`-th placements, on one node, have the fault `v`. */
  ghost predicate PlacedFault(placed: seq<Placed>, states: map<string, NodeState>, k: int, l: int, v: Violation) {
    && 0 <= k < l < |placed| && placed[k].node == placed[l].node && placed[k].node in states
    && PairFinds(states[placed[k].node].groups, placed[k].cpuset, placed[l].cpuset, placed[k].name, placed[l].name, v)
  }

  ghost predicate NamesDiffer(placed: seq<Placed>) {
    forall k, l :: 0 <= k < l < |placed| ==> placed[k].name != placed[l].name
  }

  lemma PlacedFaultsTell(placed: seq<Placed>, states: map<string, NodeState>, i: int, j: int, k: int, l: int,
                         v: Violation)
    requires NamesDiffer(placed) && PlacedFault(placed, states, i, j, v) && PlacedFault(placed, states, k, l, v)
    ensures i == k && j == l
  {
  }

  /** Some placement before the `i`-th has the fault with a later one. */
  ghost predicate PairBefore(placed: seq<Placed>, states: map<string, NodeState>, i: int, v: Violation) {
    exists k, l :: k < i && PlacedFault(placed, states, k, l, v)
  }

  /** The `i`-th placement has the fault with one before the `j`-th. */
  ghost predicate RightBefore(placed: seq<Placed>, states: map<string, NodeState>, i: int, j: int, v: Violation) {
    exists l :: l < j && PlacedFault(placed, states, i, l, v)
  }

  lemma PairSteps(placed: seq<Placed>, states: map<string, NodeState>, i: nat, j: nat, v: Violation)
    requires NamesDiffer(placed)
    ensures RightBefore(placed, states, i, j + 1, v) <==>
            RightBefore(placed, states, i, j, v) || PlacedFault(placed, states, i, j, v)
    ensures PairBefore(placed, states, i + 1, v) <==>
            PairBefore(placed, states, i, v) || RightBefore(placed, states, i, |placed|, v)
    ensures !RightBefore(placed, states, i, i + 1, v)
    ensures PairBefore(placed, states, i, v) || RightBefore(placed, states, i, j, v) ==>
            !PlacedFault(placed, states, i, j, v)
  {
    hide PairFinds;
    if k, l :| k < i && PlacedFault(placed, states, k, l, v) {
      if PlacedFault(placed, states, i, j, v) { PlacedFaultsTell(placed, states, i, j, k, l, v); }
    }
    if l :| l < j && PlacedFault(placed, states, i, l, v) {
      if PlacedFault(placed, states, i, j, v) { PlacedFaultsTell(placed, states, i, j, i, l, v); }
    }
  }

  method CheckPairs(placed: seq<Placed>, s: Snapshot, states: map<string, NodeState>) returns (found: seq<Violation>)
    requires StatesOf(states, s.nodes) && NamesDiffer(placed)
    requires forall k :: 0 <= k < |placed| ==> OnState(placed[k], s, states)
    ensures Distinct(found) && forall v :: v in found <==> exists k, l :: PlacedFault(placed, states, k, l, v)
  {
    hide Describes, NodeWellFormed, SharesCore, PairFinds, PlacedFault, PairBefore, RightBefore, Distinct, OnState,
         NamesDiffer, Apart, StatesOf;
    found := [];
    NoPairsYet(placed, states);
    for i := 0 to |placed|
      invariant Distinct(found) && forall v :: v in found <==> PairBefore(placed, states, i, v)
    {
      var left := placed[i];
      NoRightYet(placed, states, i, i + 1);
      for j := i + 1 to |placed|
        invariant Distinct(found)
        invariant forall v :: v in found <==> PairBefore(placed, states, i, v) || RightBefore(placed, states, i, j, v)
      {
        var right := placed[j];
        forall v
          ensures RightBefore(placed, states, i, j + 1, v) <==>
                  RightBefore(placed, states, i, j, v) || PlacedFault(placed, states, i, j, v)
          ensures PairBefore(placed, states, i, v) || RightBefore(placed, states, i, j, v) ==>
                  !PlacedFault(placed, states, i, j, v)
        {
          PairSteps(placed, states, i, j, v);
        }
        Placeable(s, states, left);
        Placeable(s, states, right);
        PlacedFaultReads(placed, states, i, j);
        if left.node == right.node {
          var pair := CheckPair(left, right, states[left.node], s.nodes[left.node]);
          DistinctJoin(found, pair);
          found := found + pair;
        }
      }
      forall v
        ensures PairBefore(placed, states, i + 1, v) <==>
                PairBefore(placed, states, i, v) || RightBefore(placed, states, i, |placed|, v)
      {
        PairSteps(placed, states, i, i, v);
      }
    }
    AllPairs(placed, states);
  }

  lemma NoRightYet(placed: seq<Placed>, states: map<string, NodeState>, i: nat, j: nat)
    requires j <= i + 1
    ensures forall v :: !RightBefore(placed, states, i, j, v)
  {
  }

  lemma NoPairsYet(placed: seq<Placed>, states: map<string, NodeState>)
    ensures Distinct<Violation>([]) && forall v :: !PairBefore(placed, states, 0, v)
  {
  }

  lemma AllPairs(placed: seq<Placed>, states: map<string, NodeState>)
    ensures forall v :: PairBefore(placed, states, |placed|, v) <==>
                        exists k, l :: PlacedFault(placed, states, k, l, v)
  {
    hide PairFinds;
  }

  lemma PlacedFaultReads(placed: seq<Placed>, states: map<string, NodeState>, i: nat, j: nat)
    requires i < j < |placed| && placed[i].node in states
    ensures forall v :: PlacedFault(placed, states, i, j, v) <==>
              placed[i].node == placed[j].node
              && PairFinds(states[placed[i].node].groups, placed[i].cpuset, placed[j].cpuset,
                           placed[i].name, placed[j].name, v)
  {
  }

  /** PASS means exactly: evidence complete and authoritative, every cpuset a union of whole sibling
      groups clear of housekeeping cores, and no core shared between pods.  Malformed evidence is never
      a FAIL, and a violation is never hidden by an inferred topology.  On every branch the report lists each
      fault of the pods with complete evidence, once. */
  method ValidateSnapshot(s: Snapshot) returns (r: Report)
    ensures r.verdict == (if !Evidence(s) then INVALID
                          else if !CleanPlacement(s) then FAIL
                          else if !Authoritative(s) then INVALID
                          else PASS)
    ensures r.placementVerdict == (if !Evidence(s) then INVALID else if !CleanPlacement(s) then FAIL else PASS)
    ensures r.exitCode == (match r.verdict case PASS => 0 case FAIL => 1 case INVALID => 2)
    ensures Distinct(r.violations) && forall v :: v in r.violations <==> Faulty(s, v)
    ensures Evidence(s) ==> (r.violations == [] <==> CleanPlacement(s))
  {
    hide NodeWellFormed, PodEvidence, CleanPlacement, Faulty, PlacedFault, FaultBefore, OnState, Placing, Distinct,
         StatesOf, NamesDiffer;
    var invalid := 0;
    if s.schemaVersion != SCHEMA_VERSION { invalid := invalid + 1; }
    if s.nodes == map[] { invalid := invalid + 1; }
    if |s.pods| == 0 { invalid := invalid + 1; }
    var states, invalidNodes, ineligible := BuildNodes(s.nodes);
    var placed, invalidPods, violations, at := PlacePods(s, states);
    NoneMissing(s, states);
    PlacedNamesDiffer(s, placed, at);
    var pairs := CheckPairs(placed, s, states);
    invalid := invalid + invalidNodes + invalidPods;
    AllFaults(s, states, placed, at, violations, pairs);
    violations := violations + pairs;
    assert violations == [] <==> forall v :: v !in violations by { NoneListed(violations); }
    if invalid == 0 { FaultsMean(s); }
    var placement := if invalid > 0 then INVALID else if violations != [] then FAIL else PASS;
    if invalid > 0 {
      r := Report(INVALID, placement, 2, violations);
    } else if violations != [] {
      r := Report(FAIL, placement, 1, violations);
    } else if ineligible > 0 {
      r := Report(INVALID, placement, 2, violations);
    } else {
      r := Report(PASS, placement, 0, violations);
    }
  }

  /** Counts of what is missing are zero exactly when nothing is. */
  lemma NoneMissing(s: Snapshot, states: map<string, NodeState>)
    requires StatesOf(states, s.nodes)
    ensures |set n | n in s.nodes && !NodeWellFormed(s.nodes[n])| == 0 <==>
            forall n :: n in s.nodes ==> NodeWellFormed(s.nodes[n])
    ensures |Lacking(s, |s.pods|)| == 0 <==>
            forall i :: 0 <= i < |s.pods| ==> PodEvidence(s, i)
    ensures (forall n :: n in s.nodes ==> NodeWellFormed(s.nodes[n])) ==>
            (|set n | n in states && !s.nodes[n].authoritative| == 0 <==> Authoritative(s))
  {
    hide NodeWellFormed, PodEvidence, Describes;
    var unfit := set n | n in s.nodes && !NodeWellFormed(s.nodes[n]);
    var lacking := Lacking(s, |s.pods|);
    var inferred := set n | n in states && !s.nodes[n].authoritative;
    if n :| n in s.nodes && !NodeWellFormed(s.nodes[n]) { assert n in unfit; }
    if i :| 0 <= i < |s.pods| && !PodEvidence(s, i) { assert i in lacking; }
    if n :| n in states && !s.nodes[n].authoritative { assert n in inferred; }
    assert |unfit| == 0 <==> unfit == {};
    assert |lacking| == 0 <==> lacking == {};
    assert |inferred| == 0 <==> inferred == {};
  }

  lemma NoneListed(found: seq<Violation>)
    ensures found == [] <==> forall v :: v !in found
  {
    if |found| > 0 { assert found[0] in found; }
  }

  lemma PlacedNamesDiffer(s: Snapshot, placed: seq<Placed>, at: seq<nat>)
    requires Placing(s, |s.pods|, placed, at)
    ensures NamesDiffer(placed)
  {
    forall k, l | 0 <= k < l < |placed| ensures placed[k].name != placed[l].name {
      assert at[k] < at[l] && Entry(placed[k], s, at[k]) && Entry(placed[l], s, at[l]);
    }
  }

  /** A pair of placements has a fault exactly when the pods it stands for do. */
  lemma PairFaultReads(s: Snapshot, states: map<string, NodeState>, placed: seq<Placed>, at: seq<nat>, k: nat, l: nat,
                       v: Violation)
    requires StatesOf(states, s.nodes) && Placing(s, |s.pods|, placed, at) && k < l < |placed|
    requires OnState(placed[k], s, states)
    ensures PlacedFault(placed, states, k, l, v) <==> PairFault(s, at[k], at[l], v)
  {
    hide PairFinds, Describes, NodeWellFormed;
    assert at[k] < at[l] && Entry(placed[k], s, at[k]) && Entry(placed[l], s, at[l]);
    StateReads(states[placed[k].node], s.nodes[placed[k].node]);
  }

  lemma PairsRead(s: Snapshot, states: map<string, NodeState>, placed: seq<Placed>, at: seq<nat>, v: Violation)
    requires StatesOf(states, s.nodes) && Placing(s, |s.pods|, placed, at)
    requires forall k :: 0 <= k < |placed| ==> OnState(placed[k], s, states)
    ensures (exists k, l :: PlacedFault(placed, states, k, l, v)) <==> exists i, j :: PairFault(s, i, j, v)
  {
    hide PairFinds, StatesOf, OnState, Entry;
    if k, l :| PlacedFault(placed, states, k, l, v) {
      PairFaultReads(s, states, placed, at, k, l, v);
    }
    if i, j :| PairFault(s, i, j, v) {
      var k :| 0 <= k < |at| && at[k] == i;
      var l :| 0 <= l < |at| && at[l] == j;
      assert k < l;
      PairFaultReads(s, states, placed, at, k, l, v);
    }
  }

  lemma AllFaults(s: Snapshot, states: map<string, NodeState>, placed: seq<Placed>, at: seq<nat>,
                  violations: seq<Violation>, pairs: seq<Violation>)
    requires StatesOf(states, s.nodes) && Placing(s, |s.pods|, placed, at)
    requires forall k :: 0 <= k < |placed| ==> OnState(placed[k], s, states)
    requires Distinct(violations) && forall v :: v in violations <==> FaultBefore(s, |s.pods|, v)
    requires Distinct(pairs) && forall v :: v in pairs <==> exists k, l :: PlacedFault(placed, states, k, l, v)
    ensures Distinct(violations + pairs) && forall v :: v in violations + pairs <==> Faulty(s, v)
  {
    hide StatesOf, Placing, Distinct, PlacedFault, PodEvidence, OnState;
    forall v ensures v in violations <==> exists i :: PodFault(s, i, v)
      ensures v in pairs <==> exists i, j :: PairFault(s, i, j, v)
      ensures v in violations ==> v !in pairs
    {
      PairsRead(s, states, placed, at, v);
    }
    DistinctJoin(violations, pairs);
  }

  /** With complete evidence there is no fault exactly when the placement is clean. */
  lemma FaultsMean(s: Snapshot)
    requires Evidence(s)
    ensures CleanPlacement(s) <==> forall v :: !Faulty(s, v)
  {
    hide Evidence, PodEvidence, PodFault, PairFault, CleanPod, CleanPair;
    if CleanPlacement(s) {
      forall v ensures !Faulty(s, v) { CleanHasNoFault(s, v); }
    } else if i :| 0 <= i < |s.pods| && !CleanPod(s, i) {
      PodFaultsMean(s, i);
      var v :| PodFault(s, i, v);
      assert Faulty(s, v);
    } else {
      var i, j :| 0 <= i < j < |s.pods| && !CleanPair(s, i, j);
      PairFaultsMean(s, i, j);
      var v :| PairFault(s, i, j, v);
      assert Faulty(s, v);
    }
  }

  lemma CleanHasNoFault(s: Snapshot, v: Violation)
    requires Evidence(s) && CleanPlacement(s)
    ensures !Faulty(s, v)
  {
    hide Evidence, PodEvidence, PodFault, PairFault, CleanPod, CleanPair;
    forall i ensures !PodFault(s, i, v) {
      FaultInside(s, i, i, v);
      if 0 <= i < |s.pods| { PodFaultsMean(s, i); }
    }
    forall i, j ensures !PairFault(s, i, j, v) {
      FaultInside(s, i, j, v);
      if 0 <= i < j < |s.pods| { PairFaultsMean(s, i, j); }
    }
  }

  lemma FaultInside(s: Snapshot, i: int, j: int, v: Violation)
    ensures PodFault(s, i, v) ==> 0 <= i < |s.pods|
    ensures PairFault(s, i, j, v) ==> 0 <= i < j < |s.pods|
  {
  }

  lemma EvidenceOfPod(s: Snapshot, i: nat)
    requires Evidence(s) && i < |s.pods|
    ensures PodEvidence(s, i) && s.pods[i].name.Some? && s.pods[i].node.Some? && s.pods[i].node.value in s.nodes
    ensures var raw := s.nodes[s.pods[i].node.value];
      PartitionOf(GroupsOf(raw), OnlineOf(raw)) && CpusetOf(s.pods[i]) <= OnlineOf(raw)
  {
    hide Parsed, PartitionOf;
  }

  lemma PodFaultsMean(s: Snapshot, i: nat)
    requires Evidence(s) && i < |s.pods|
    ensures CleanPod(s, i) <==> forall v :: !PodFault(s, i, v)
  {
    EvidenceOfPod(s, i);
    hide Evidence, PodEvidence, WholeCores, SplitsGroup, Joins, GroupsOf, OnlineOf, ReservedOf, CpusetOf, PartitionOf;
    var pod, raw := s.pods[i], s.nodes[s.pods[i].node.value];
    var groups, reserved, cpuset, name := GroupsOf(raw), ReservedOf(raw), CpusetOf(pod), pod.name.value;
    WholeCoresByGroup(groups, reserved, cpuset);
    OverlapJoins(groups, OnlineOf(raw), cpuset, reserved);
    assert PodFault(s, i, IncompleteSiblingSet(name)) <==> exists k :: SplitsGroup(groups, cpuset, k);
    assert PodFault(s, i, HousekeepingCoreShared(name)) <==> exists k :: Joins(groups, cpuset, reserved, k);
  }

  /** Sharing a CPU is sharing its core. */
  lemma OverlapJoins(groups: seq<set<nat>>, online: set<nat>, a: set<nat>, b: set<nat>)
    requires PartitionOf(groups, online) && a <= online
    ensures a * b != {} ==> exists k :: Joins(groups, a, b, k)
  {
    if cpu :| cpu in a * b {
      var k :| 0 <= k < |groups| && cpu in groups[k];
      assert Joins(groups, a, b, k);
    }
  }

  lemma PairFaultsMean(s: Snapshot, i: nat, j: nat)
    requires Evidence(s) && i < j < |s.pods|
    ensures CleanPair(s, i, j) <==> forall v :: !PairFault(s, i, j, v)
  {
    EvidenceOfPod(s, i);
    EvidenceOfPod(s, j);
    hide Evidence, PodEvidence, Apart, Joins, GroupsOf, OnlineOf, CpusetOf, PartitionOf;
    var left, right, raw := s.pods[i], s.pods[j], s.nodes[s.pods[i].node.value];
    var groups, a, b := GroupsOf(raw), CpusetOf(left), CpusetOf(right);
    ApartByGroup(groups, a, b);
    OverlapJoins(groups, OnlineOf(raw), a, b);
    assert left.node == right.node ==>
      (PairFault(s, i, j, TargetCpuOverlap(left.name.value, right.name.value)) <==> a * b != {});
    assert left.node == right.node ==>
      (PairFault(s, i, j, TargetCoreShared(left.name.value, right.name.value)) <==>
        a * b == {} && exists k :: Joins(groups, a, b, k));
  }

  // ----- what a PASS guarantees -----

  /** The CPUs of the cores that hold no reserved CPU. */
  function FreeCpus(raw: RawNode): set<nat> {
    set cpu | cpu in OnlineOf(raw)
              && forall k :: 0 <= k < |GroupsOf(raw)| && cpu in GroupsOf(raw)[k] ==> GroupsOf(raw)[k] !! ReservedOf(raw)
  }

  function OnNode(node: string): RawPod -> nat {
    (pod: RawPod) => if pod.node == Some(node) then |CpusetOf(pod)| else 0
  }

  /** The CPUs held by the first `n` pods of a node. */
  ghost function Held(pods: seq<RawPod>, n: nat, node: string): set<nat>
    requires n <= |pods|
  {
    if n == 0 then {} else
    Held(pods, n - 1, node) + (if pods[n - 1].node == Some(node) then CpusetOf(pods[n - 1]) else {})
  }

  lemma {:induction false} HeldFrom(pods: seq<RawPod>, n: nat, node: string, cpu: nat)
    requires n <= |pods| && cpu in Held(pods, n, node)
    ensures exists i :: 0 <= i < n && pods[i].node == Some(node) && cpu in CpusetOf(pods[i])
  {
    if cpu !in Held(pods, n - 1, node) {
      assert pods[n - 1].node == Some(node) && cpu in CpusetOf(pods[n - 1]);
    } else {
      HeldFrom(pods, n - 1, node, cpu);
    }
  }

  /** Pods of a passing snapshot never hold the same CPU. */
  lemma CpusApart(s: Snapshot, i: nat, j: nat)
    requires Evidence(s) && CleanPlacement(s) && i < j < |s.pods|
    requires s.pods[i].node == s.pods[j].node
    ensures CpusetOf(s.pods[i]) !! CpusetOf(s.pods[j])
  {
    hide Parsed;
    assert PodEvidence(s, i) && PodEvidence(s, j) && CleanPair(s, i, j);
    var raw := s.nodes[s.pods[i].node.value];
    assert NodeWellFormed(raw);
    var groups := GroupsOf(raw);
    forall cpu | cpu in CpusetOf(s.pods[i]) ensures cpu !in CpusetOf(s.pods[j]) {
      var k :| 0 <= k < |groups| && cpu in groups[k];
      assert groups[k] !! CpusetOf(s.pods[i]) || groups[k] !! CpusetOf(s.pods[j]);
    }
  }

  lemma PodOnFreeCpus(s: Snapshot, i: nat)
    requires Evidence(s) && CleanPlacement(s) && i < |s.pods|
    ensures s.pods[i].node.Some? && s.pods[i].node.value in s.nodes
    ensures CpusetOf(s.pods[i]) <= FreeCpus(s.nodes[s.pods[i].node.value])
  {
    hide Parsed;
    assert PodEvidence(s, i) && CleanPod(s, i);
  }

  lemma HeldApart(s: Snapshot, n: nat, node: string)
    requires Evidence(s) && CleanPlacement(s) && n < |s.pods| && s.pods[n].node == Some(node)
    ensures Held(s.pods, n, node) !! CpusetOf(s.pods[n])
  {
    hide Evidence, CleanPlacement, CpusetOf, Held;
    forall cpu | cpu in Held(s.pods, n, node) ensures cpu !in CpusetOf(s.pods[n]) {
      HeldFrom(s.pods, n, node, cpu);
      var i :| 0 <= i < n && s.pods[i].node == Some(node) && cpu in CpusetOf(s.pods[i]);
      CpusApart(s, i, n);
    }
  }

  lemma {:induction false} HeldCounts(s: Snapshot, n: nat, node: string)
    requires Evidence(s) && CleanPlacement(s) && n <= |s.pods| && node in s.nodes
    ensures |Held(s.pods, n, node)| == SumTo(s.pods, n, OnNode(node))
    ensures Held(s.pods, n, node) <= FreeCpus(s.nodes[node])
  {
    hide Evidence, CleanPlacement, FreeCpus, CpusetOf;
    if n > 0 {
      HeldCounts(s, n - 1, node);
      var pod := s.pods[n - 1];
      if pod.node == Some(node) {
        PodOnFreeCpus(s, n - 1);
        HeldApart(s, n - 1, node);
      }
    }
  }

  lemma SubsetSize(a: set<nat>, b: set<nat>)
    requires a <= b
    ensures |a| <= |b|
  {
    assert b == a + (b - a);
  }

  /** The pods of a node never ask for more CPUs than its housekeeping-free cores have. */
  lemma PassFitsNode(s: Snapshot, node: string)
    requires Evidence(s) && CleanPlacement(s) && node in s.nodes
    ensures Sum(s.pods, OnNode(node)) <= |FreeCpus(s.nodes[node])|
  {
    hide Evidence, CleanPlacement, FreeCpus, OnNode;
    HeldCounts(s, |s.pods|, node);
    SubsetSize(Held(s.pods, |s.pods|, node), FreeCpus(s.nodes[node]));
  }

  lemma PrintedGiven(cpus: set<nat>)
    requires cpus != {}
    ensures Given(Some(Formatted(cpus))) == Some(cpus)
  {
    ParseFormat(cpus);
  }

  /** The one-node snapshot of a two-core machine with one housekeeping CPU. */
  function TwoCores(): Snapshot {
    var groups := [Some(Formatted({0})), Some(Formatted({1}))];
    var node := RawNode(Some(Formatted({0, 1})), Some(Formatted({0})), Some(groups), true);
    Snapshot(SCHEMA_VERSION, map["n" := node], [RawPod(Some("p"), Some("n"), true, Some(Formatted({1})))])
  }

  lemma TwoCoresNode()
    ensures var raw := TwoCores().nodes["n"];
      NodeWellFormed(raw) && GroupsOf(raw) == [{0}, {1}] && OnlineOf(raw) == {0, 1} && ReservedOf(raw) == {0}
  {
    hide Given, Formatted, Parsed;
    var raw := TwoCores().nodes["n"];
    PrintedGiven({0, 1});
    PrintedGiven({0});
    PrintedGiven({1});
    var texts := raw.groups.value;
    GroupsGiven(texts, 2);
    assert GroupsTo(texts, 2).value == [{0}, {1}];
  }

  /** The conditions of a PASS can be met. */
  lemma PassPossible()
    ensures Evidence(TwoCores()) && CleanPlacement(TwoCores()) && Authoritative(TwoCores())
  {
    hide Given, Formatted, Parsed, NodeWellFormed, GroupsOf, OnlineOf, ReservedOf;
    TwoCoresNode();
    PrintedGiven({1});
    var s := TwoCores();
    assert CpusetOf(s.pods[0]) == {1};
    assert PodEvidence(s, 0) && CleanPod(s, 0);
  }
}
