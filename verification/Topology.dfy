/** The CPU-topology gate: sibling groups captured from a node, and the verdict on where pods sit. */
module Topology {
  import opened Common
  import opened CpuList
  import opened Sorting

  // ----- capture of one pod or node -----

  /** A classified line of the capture; lines of no known form carry nothing. */
  datatype Line =
    | CpusetLine(text: string)
    | OnlineLine(text: string)
    | SiblingLine(cpu: nat, text: string)
    | OtherLine

  datatype Scan = Scan(cpuset: Option<string>, online: Option<string>, perCpu: map<nat, string>)

  datatype CaptureError =
    | BadList(error: EvidenceError)
    | Inconsistent(cpu: nat)
    | NoCpuset
    | NoOnline
    | CoverageMismatch
    | AbsentFromOwnSet(cpu: nat)
    | Asymmetric(cpu: nat, sibling: nat)

  datatype Capture = Capture(cpuset: string, online: Option<string>, groups: seq<string>)

  /** `format_cpu_list(parse_cpu_list(text))`. */
  function Canonicalize(text: string): Result<string, CaptureError> {
    match Parsed(text)
    case Err(e) => Err(BadList(e))
    case Ok(cpus) => Ok(Formatted(cpus))
  }

  function ScanLine(s: Scan, line: Line): Result<Scan, CaptureError> {
    match line
    case OtherLine => Ok(s)
    case CpusetLine(text) =>
      (match Canonicalize(text) case Err(e) => Err(e) case Ok(c) => Ok(s.(cpuset := Some(c))))
    case OnlineLine(text) =>
      (match Canonicalize(text) case Err(e) => Err(e) case Ok(c) => Ok(s.(online := Some(c))))
    case SiblingLine(cpu, text) =>
      match Canonicalize(text)
      case Err(e) => Err(e)
      case Ok(c) =>
        if cpu in s.perCpu && s.perCpu[cpu] != c then Err(Inconsistent(cpu))
        else Ok(s.(perCpu := s.perCpu[cpu := c]))
  }

  function ScanTo(lines: seq<Line>, n: nat): Result<Scan, CaptureError>
    requires n <= |lines|
  {
    if n == 0 then Ok(Scan(None, None, map[])) else
    match ScanTo(lines, n - 1)
    case Err(e) => Err(e)
    case Ok(s) => ScanLine(s, lines[n - 1])
  }

  /** The set a canonical text stands for. */
  function SetOf(text: string): set<nat> {
    match Parsed(text)
    case Ok(cpus) => cpus
    case Err(_) => {}
  }

  ghost predicate CanonicalText(text: string) {
    Parsed(text).Ok? && Formatted(SetOf(text)) == text && SetOf(text) != {}
  }

  ghost predicate CanonicalScan(s: Scan) {
    && (s.cpuset.Some? ==> CanonicalText(s.cpuset.value))
    && (s.online.Some? ==> CanonicalText(s.online.value))
    && (forall cpu :: cpu in s.perCpu ==> CanonicalText(s.perCpu[cpu]))
  }

  lemma CanonicalizeCanonical(text: string)
    requires Canonicalize(text).Ok?
    ensures CanonicalText(Canonicalize(text).value)
    ensures SetOf(Canonicalize(text).value) == Parsed(text).value
  {
    AcceptedNonEmpty(text);
    ReformatStable(text);
  }

  lemma {:induction false} ScanCanonical(lines: seq<Line>, n: nat)
    requires n <= |lines| && ScanTo(lines, n).Ok?
    ensures CanonicalScan(ScanTo(lines, n).value)
  {
    hide Canonicalize, CanonicalText;
    if n > 0 {
      ScanCanonical(lines, n - 1);
      var line := lines[n - 1];
      if !line.OtherLine? { CanonicalizeCanonical(line.text); }
    }
  }

  // ----- what a scan keeps -----

  ghost predicate Lists(lines: seq<Line>, i: int) {
    0 <= i < |lines| && (lines[i].OtherLine? || Parsed(lines[i].text).Ok?)
  }

  /** Two sibling lines of one CPU name the same set. */
  ghost predicate Agree(lines: seq<Line>, i: int, j: int)
    requires Lists(lines, i) && Lists(lines, j)
  {
    lines[i].SiblingLine? && lines[j].SiblingLine? && lines[i].cpu == lines[j].cpu ==>
      Parsed(lines[i].text).value == Parsed(lines[j].text).value
  }

  ghost predicate AllAgree(lines: seq<Line>, n: nat)
    requires n <= |lines|
  {
    && (forall i :: 0 <= i < n ==> Lists(lines, i))
    && (forall i, j :: 0 <= i < n && 0 <= j < n ==> Agree(lines, i, j))
  }

  function Kind(line: Line): nat {
    match line case CpusetLine(_) => 0 case OnlineLine(_) => 1 case SiblingLine(_, _) => 2 case OtherLine => 3
  }

  /** The value comes from the last line of its kind, and there is none without such a line. */
  ghost predicate FromLast(lines: seq<Line>, n: nat, kind: nat, value: Option<string>)
    requires n <= |lines| && kind <= 1
  {
    && (value.None? <==> forall i :: 0 <= i < n ==> Kind(lines[i]) != kind)
    && (value.Some? ==> exists i :: 0 <= i < n && IsLast(lines, n, kind, i) && Prints(lines[i], value.value))
  }

  ghost predicate IsLast(lines: seq<Line>, n: nat, kind: nat, i: int)
    requires n <= |lines|
  {
    0 <= i < n && Kind(lines[i]) == kind && forall j :: i < j < n ==> Kind(lines[j]) != kind
  }

  ghost predicate Prints(line: Line, text: string) {
    !line.OtherLine? && Parsed(line.text).Ok? && text == Formatted(Parsed(line.text).value)
  }

  ghost predicate SiblingsKept(lines: seq<Line>, n: nat, perCpu: map<nat, string>)
    requires n <= |lines|
  {
    && (forall cpu :: cpu in perCpu <==> exists i :: 0 <= i < n && lines[i].SiblingLine? && lines[i].cpu == cpu)
    && (forall i :: 0 <= i < n && lines[i].SiblingLine? ==>
          lines[i].cpu in perCpu && Prints(lines[i], perCpu[lines[i].cpu]))
  }

  lemma SameText(a: string, b: string)
    requires Parsed(a).Ok? && Parsed(b).Ok?
    ensures Formatted(Parsed(a).value) == Formatted(Parsed(b).value) <==> Parsed(a).value == Parsed(b).value
  {
    AcceptedNonEmpty(a);
    AcceptedNonEmpty(b);
    hide Parsed, Formatted;
    if Formatted(Parsed(a).value) == Formatted(Parsed(b).value) {
      FormatInjective(Parsed(a).value, Parsed(b).value);
    }
  }

  lemma FromLastStep(lines: seq<Line>, n: nat, kind: nat, before: Option<string>, after: Option<string>)
    requires n < |lines| && kind <= 1 && FromLast(lines, n, kind, before)
    requires if Kind(lines[n]) == kind then after.Some? && Prints(lines[n], after.value) else after == before
    ensures FromLast(lines, n + 1, kind, after)
  {
    hide Prints, Kind;
    if Kind(lines[n]) == kind {
      assert IsLast(lines, n + 1, kind, n);
    } else if before.Some? {
      var i :| 0 <= i < n && IsLast(lines, n, kind, i) && Prints(lines[i], before.value);
      assert IsLast(lines, n + 1, kind, i);
    }
  }

  lemma AgreeStep(lines: seq<Line>, n: nat)
    requires n < |lines| && AllAgree(lines, n)
    ensures AllAgree(lines, n + 1) <==>
              Lists(lines, n) && forall i :: 0 <= i < n && Lists(lines, i) && Lists(lines, n) ==> Agree(lines, i, n)
  {
    hide Parsed;
    if Lists(lines, n) && forall i :: 0 <= i < n && Lists(lines, i) && Lists(lines, n) ==> Agree(lines, i, n) {
      forall i, j | 0 <= i < n + 1 && 0 <= j < n + 1 ensures Lists(lines, i) && Lists(lines, j) && Agree(lines, i, j) {
        assert i < n && j < n ==> Agree(lines, i, j);
        assert i < n ==> Agree(lines, i, n);
        assert j < n ==> Agree(lines, j, n);
      }
    }
  }

  lemma SiblingStep(lines: seq<Line>, n: nat, perCpu: map<nat, string>)
    requires n < |lines| && AllAgree(lines, n) && Lists(lines, n) && SiblingsKept(lines, n, perCpu)
    requires lines[n].SiblingLine?
    ensures var text := Formatted(Parsed(lines[n].text).value);
      && (AllAgree(lines, n + 1) <==> (lines[n].cpu in perCpu ==> perCpu[lines[n].cpu] == text))
      && (AllAgree(lines, n + 1) ==> SiblingsKept(lines, n + 1, perCpu[lines[n].cpu := text]))
  {
    hide Parsed, Formatted;
    AgreeStep(lines, n);
    var cpu := lines[n].cpu;
    forall i | 0 <= i < n && lines[i].SiblingLine? && lines[i].cpu == cpu
      ensures cpu in perCpu && (Agree(lines, i, n) <==> perCpu[cpu] == Formatted(Parsed(lines[n].text).value))
    {
      assert Lists(lines, i);
      SameText(lines[i].text, lines[n].text);
    }
    assert cpu in perCpu ==> exists i :: 0 <= i < n && lines[i].SiblingLine? && lines[i].cpu == cpu;
  }

  lemma OtherStep(lines: seq<Line>, n: nat, perCpu: map<nat, string>)
    requires n < |lines| && AllAgree(lines, n) && SiblingsKept(lines, n, perCpu) && !lines[n].SiblingLine?
    ensures AllAgree(lines, n + 1) <==> Lists(lines, n)
    ensures SiblingsKept(lines, n + 1, perCpu)
  {
    hide Parsed, Formatted;
    AgreeStep(lines, n);
  }

  /** A scan succeeds exactly when every list parses and the sibling lines of each CPU agree; it keeps the last
      cpuset and the last online list, and one canonical text for each CPU listed. */
  lemma {:induction false} ScanExactly(lines: seq<Line>, n: nat)
    requires n <= |lines|
    ensures ScanTo(lines, n).Ok? <==> AllAgree(lines, n)
    ensures ScanTo(lines, n).Ok? ==> var s := ScanTo(lines, n).value;
      FromLast(lines, n, 0, s.cpuset) && FromLast(lines, n, 1, s.online) && SiblingsKept(lines, n, s.perCpu)
  {
    hide Parsed, Formatted, FromLast, SiblingsKept, AllAgree;
    if n == 0 {
      NothingScanned(lines);
    } else {
      ScanExactly(lines, n - 1);
      AgreeFewer(lines, n - 1);
      if ScanTo(lines, n - 1).Ok? {
        var s := ScanTo(lines, n - 1).value;
        var line := lines[n - 1];
        if line.SiblingLine? {
          if Parsed(line.text).Ok? { SiblingStep(lines, n - 1, s.perCpu); }
        } else {
          OtherStep(lines, n - 1, s.perCpu);
        }
        if ScanTo(lines, n).Ok? {
          var t := ScanTo(lines, n).value;
          FromLastStep(lines, n - 1, 0, s.cpuset, t.cpuset);
          FromLastStep(lines, n - 1, 1, s.online, t.online);
        }
      }
    }
  }

  /** A refused scan names its first bad line: a list that does not parse, or a sibling line that contradicts an
      earlier one of its CPU. */
  lemma {:induction false} ScanRefused(lines: seq<Line>, n: nat) returns (i: nat)
    requires n <= |lines| && ScanTo(lines, n).Err?
    ensures i < n && AllAgree(lines, i) && !AllAgree(lines, i + 1) && !lines[i].OtherLine?
    ensures match Parsed(lines[i].text)
            case Err(e) => ScanTo(lines, n) == Err(BadList(e))
            case Ok(_) => lines[i].SiblingLine? && ScanTo(lines, n) == Err(Inconsistent(lines[i].cpu))
  {
    hide Parsed, Formatted, AllAgree;
    ScanExactly(lines, n);
    ScanExactly(lines, n - 1);
    if ScanTo(lines, n - 1).Err? {
      i := ScanRefused(lines, n - 1);
    } else {
      i := n - 1;
    }
  }

  lemma NothingScanned(lines: seq<Line>)
    ensures AllAgree(lines, 0) && FromLast(lines, 0, 0, None) && FromLast(lines, 0, 1, None)
    ensures SiblingsKept(lines, 0, map[])
  {
  }

  lemma AgreeFewer(lines: seq<Line>, n: nat)
    requires n < |lines|
    ensures AllAgree(lines, n + 1) ==> AllAgree(lines, n) && Lists(lines, n)
  {
    hide Parsed;
  }

  /** Every CPU is in its own group, and every member of a group reports that same group. */
  ghost predicate SharesGroup(perCpu: map<nat, string>, cpu: nat)
    requires cpu in perCpu
  {
    && cpu in SetOf(perCpu[cpu])
    && (forall s :: s in SetOf(perCpu[cpu]) ==> s in perCpu && perCpu[s] == perCpu[cpu])
  }

  ghost predicate Symmetric(perCpu: map<nat, string>) {
    forall cpu :: cpu in perCpu ==> SharesGroup(perCpu, cpu)
  }

  /** Exactly when a node capture is accepted. */
  ghost predicate AcceptableScan(s: Scan) {
    s.cpuset.Some? && s.online.Some? && s.perCpu.Keys == SetOf(s.online.value) && Symmetric(s.perCpu)
  }

  /** The error names how CPU `cpu` breaks the symmetry of the map. */
  ghost predicate Breaks(perCpu: map<nat, string>, cpu: nat, error: CaptureError)
    requires cpu in perCpu
  {
    match error
    case AbsentFromOwnSet(c) => c == cpu && cpu !in SetOf(perCpu[cpu])
    case Asymmetric(c, s) =>
      c == cpu && cpu in SetOf(perCpu[cpu]) && s in SetOf(perCpu[cpu]) && (s !in perCpu || perCpu[s] != perCpu[cpu])
    case _ => false
  }

  method CheckCpu(perCpu: map<nat, string>, cpu: nat) returns (error: Option<CaptureError>)
    requires cpu in perCpu
    ensures error.None? <==> SharesGroup(perCpu, cpu)
    ensures error.Some? ==> Breaks(perCpu, cpu, error.value)
  {
    var group := SetOf(perCpu[cpu]);
    if cpu !in group { return Some(AbsentFromOwnSet(cpu)); }
    var todo := group;
    while todo != {}
      invariant todo <= group
      invariant forall s :: s in group && s !in todo ==> s in perCpu && perCpu[s] == perCpu[cpu]
    {
      var s :| s in todo;
      if s !in perCpu || perCpu[s] != perCpu[cpu] { return Some(Asymmetric(cpu, s)); }
      todo := todo - {s};
    }
    return None;
  }

  /** The least CPU of a group's text, by which groups are listed. */
  function GroupKey(text: string): nat {
    if SetOf(text) == {} then 0 else Least(SetOf(text))
  }

  predicate KeyLe(a: string, b: string) { GroupKey(a) <= GroupKey(b) }

  lemma KeyLeTotal()
    ensures TotalOrder(KeyLe)
  {
  }

  method SortGroups(texts: set<string>) returns (groups: seq<string>)
    ensures SortedBy(groups, KeyLe) && multiset(groups) == multiset(texts)
  {
    hide KeyLe, SortedBy, TotalOrder;
    KeyLeTotal();
    groups := [];
    EmptySorted();
    var todo := texts;
    while todo != {}
      invariant todo <= texts && SortedBy(groups, KeyLe) && multiset(groups) == multiset(texts - todo)
    {
      var text :| text in todo;
      InsertSorts(groups, text, KeyLe);
      groups := Insert(groups, text, KeyLe);
      assert texts - (todo - {text}) == (texts - todo) + {text};
      todo := todo - {text};
    }
    assert texts - {} == texts;
  }

  lemma EmptySorted()
    ensures SortedBy([], KeyLe)
  {
  }

  /** The distinct groups in ascending order of their least CPU. */
  ghost predicate GroupsListed(groups: seq<string>, perCpu: map<nat, string>) {
    && (forall g :: g in groups <==> g in perCpu.Values)
    && (forall i, j :: 0 <= i < j < |groups| ==> GroupKey(groups[i]) < GroupKey(groups[j]))
  }

  /** Why a scan is refused; which CPU is named first is left open. */
  ghost predicate Refuses(s: Scan, requireTopology: bool, error: CaptureError) {
    if s.cpuset.None? then error == NoCpuset
    else if !requireTopology then false
    else if s.online.None? then error == NoOnline
    else if s.perCpu.Keys != SetOf(s.online.value) then error == CoverageMismatch
    else
      match error
      case AbsentFromOwnSet(cpu) => cpu in s.perCpu && cpu !in SetOf(s.perCpu[cpu])
      case Asymmetric(cpu, sibling) =>
        && cpu in s.perCpu && cpu in SetOf(s.perCpu[cpu]) && sibling in SetOf(s.perCpu[cpu])
        && (sibling !in s.perCpu || s.perCpu[sibling] != s.perCpu[cpu])
      case _ => false
  }

  method CheckSymmetric(perCpu: map<nat, string>) returns (error: Option<CaptureError>)
    ensures error.None? <==> Symmetric(perCpu)
    ensures error.Some? ==> exists cpu :: cpu in perCpu && Breaks(perCpu, cpu, error.value)
  {
    hide SharesGroup, Breaks;
    var todo := perCpu.Keys;
    while todo != {}
      invariant todo <= perCpu.Keys
      invariant forall cpu :: cpu in perCpu && cpu !in todo ==> SharesGroup(perCpu, cpu)
    {
      var cpu :| cpu in todo;
      error := CheckCpu(perCpu, cpu);
      if error.Some? { return; }
      todo := todo - {cpu};
    }
    return None;
  }

  method ParseExecCapture(lines: seq<Line>, requireTopology: bool) returns (r: Result<Capture, CaptureError>)
    ensures r.Ok? <==>
      && ScanTo(lines, |lines|).Ok?
      && var s := ScanTo(lines, |lines|).value;
      && s.cpuset.Some? && (requireTopology ==> AcceptableScan(s))
    ensures r.Ok? ==> var s := ScanTo(lines, |lines|).value;
      && r.value.cpuset == s.cpuset.value && r.value.online == (if requireTopology then s.online else None)
      && (if requireTopology then GroupsListed(r.value.groups, s.perCpu) else r.value.groups == [])
    ensures r.Err? ==>
      match ScanTo(lines, |lines|)
      case Err(e) => r.error == e
      case Ok(s) => Refuses(s, requireTopology, r.error)
  {
    hide SetOf, Symmetric, Breaks, GroupsListed, CanonicalScan;
    var scan := Scan(None, None, map[]);
    for i := 0 to |lines|
      invariant ScanTo(lines, i) == Ok(scan)
    {
      match ScanLine(scan, lines[i]) {
        case Err(e) =>
          FirstScanError(lines, i + 1, |lines|);
          return Err(e);
        case Ok(next) =>
          scan := next;
      }
    }
    hide ScanTo, ScanLine;
    if scan.cpuset.None? { return Err(NoCpuset); }
    if !requireTopology { return Ok(Capture(scan.cpuset.value, None, [])); }
    if scan.online.None? { return Err(NoOnline); }
    if scan.perCpu.Keys != SetOf(scan.online.value) { return Err(CoverageMismatch); }
    var groups := SortGroups(scan.perCpu.Values);
    var error := CheckSymmetric(scan.perCpu);
    if error.Some? {
      ghost var cpu :| cpu in scan.perCpu && Breaks(scan.perCpu, cpu, error.value);
      BreaksRefuses(scan, cpu, error.value);
      return Err(error.value);
    }
    ScanCanonical(lines, |lines|);
    SortedGroupsListed(scan, groups);
    return Ok(Capture(scan.cpuset.value, scan.online, groups));
  }

  lemma BreaksRefuses(s: Scan, cpu: nat, error: CaptureError)
    requires s.cpuset.Some? && s.online.Some? && s.perCpu.Keys == SetOf(s.online.value)
    requires cpu in s.perCpu && Breaks(s.perCpu, cpu, error)
    ensures Refuses(s, true, error)
  {
  }

  /** Groups of an accepted map are disjoint and non-empty, so their least CPUs differ. */
  lemma SortedGroupsListed(s: Scan, groups: seq<string>)
    requires CanonicalScan(s) && Symmetric(s.perCpu) && SortedBy(groups, KeyLe)
    requires multiset(groups) == multiset(s.perCpu.Values)
    ensures GroupsListed(groups, s.perCpu)
  {
    hide SetOf, Symmetric, CanonicalText;
    forall g ensures g in groups <==> g in s.perCpu.Values {
      assert g in groups <==> g in multiset(groups);
    }
    forall i, j | 0 <= i < j < |groups| ensures GroupKey(groups[i]) < GroupKey(groups[j]) {
      ListedOnce(groups, s.perCpu.Values, i, j);
      assert groups[i] in groups && groups[j] in groups;
      KeysDiffer(s, groups[i], groups[j]);
      assert KeyLe(groups[i], groups[j]);
    }
  }

  lemma ListedOnce(groups: seq<string>, texts: set<string>, i: nat, j: nat)
    requires multiset(groups) == multiset(texts) && i < j < |groups|
    ensures groups[i] != groups[j]
  {
    assert groups == groups[..i] + [groups[i]] + groups[i + 1..j] + [groups[j]] + groups[j + 1..];
    assert groups[i] == groups[j] ==> multiset(groups)[groups[i]] >= 2;
    assert multiset(texts)[groups[i]] <= 1;
  }

  lemma KeysDiffer(s: Scan, g: string, h: string)
    requires CanonicalScan(s) && Symmetric(s.perCpu) && g in s.perCpu.Values && h in s.perCpu.Values && g != h
    ensures GroupKey(g) != GroupKey(h)
  {
    hide Symmetric, SetOf, CanonicalText;
    var a :| a in s.perCpu && s.perCpu[a] == g;
    var b :| b in s.perCpu && s.perCpu[b] == h;
    GroupsDisjoint(s.perCpu, a, b);
    GivenNonEmpty(g);
    GivenNonEmpty(h);
  }

  lemma GivenNonEmpty(text: string)
    requires CanonicalText(text)
    ensures SetOf(text) != {}
  {
  }

  lemma {:induction false} FirstScanError(lines: seq<Line>, n: nat, m: nat)
    requires n <= m <= |lines| && ScanTo(lines, n).Err?
    ensures ScanTo(lines, m) == ScanTo(lines, n)
  {
    hide ScanLine;
    if n < m { FirstScanError(lines, n, m - 1); }
  }

  // ----- every real topology is accepted -----

  /** A map from each CPU to its core: each core is shared exactly by its members. */
  ghost predicate Cores(cpus: seq<nat>, coreOf: map<nat, set<nat>>) {
    && coreOf.Keys == (set cpu | cpu in cpus)
    && (forall cpu :: cpu in coreOf ==> cpu in coreOf[cpu])
    && (forall cpu, s :: cpu in coreOf && s in coreOf[cpu] ==> s in coreOf && coreOf[s] == coreOf[cpu])
  }

  /** What the capture script prints: one sibling line per CPU, in any order. */
  function SiblingLines(cpus: seq<nat>, coreOf: map<nat, set<nat>>, n: nat): (lines: seq<Line>)
    requires n <= |cpus| && forall i :: 0 <= i < n ==> cpus[i] in coreOf
    ensures |lines| == n
  {
    if n == 0 then [] else
    SiblingLines(cpus, coreOf, n - 1) + [SiblingLine(cpus[n - 1], Formatted(coreOf[cpus[n - 1]]))]
  }

  function PrintedCores(cpus: seq<nat>, coreOf: map<nat, set<nat>>, n: nat): map<nat, string>
    requires n <= |cpus| && forall i :: 0 <= i < n ==> cpus[i] in coreOf
  {
    if n == 0 then map[] else PrintedCores(cpus, coreOf, n - 1)[cpus[n - 1] := Formatted(coreOf[cpus[n - 1]])]
  }

  lemma {:induction false} PrintedCoresAre(cpus: seq<nat>, coreOf: map<nat, set<nat>>, n: nat)
    requires n <= |cpus| && forall i :: 0 <= i < n ==> cpus[i] in coreOf
    ensures forall cpu :: cpu in PrintedCores(cpus, coreOf, n) <==> exists i :: 0 <= i < n && cpus[i] == cpu
    ensures forall cpu :: cpu in PrintedCores(cpus, coreOf, n) ==>
              cpu in coreOf && PrintedCores(cpus, coreOf, n)[cpu] == Formatted(coreOf[cpu])
  {
    hide Formatted;
    if n > 0 { PrintedCoresAre(cpus, coreOf, n - 1); }
  }

  lemma PrintedCanonicalizes(cpus: set<nat>)
    requires cpus != {}
    ensures Canonicalize(Formatted(cpus)) == Ok(Formatted(cpus)) && SetOf(Formatted(cpus)) == cpus
  {
    ParseFormat(cpus);
  }

  lemma {:induction false} LinesAgree(a: seq<Line>, b: seq<Line>, n: nat)
    requires n <= |a| && n <= |b| && forall i :: 0 <= i < n ==> a[i] == b[i]
    ensures ScanTo(a, n) == ScanTo(b, n)
  {
    hide ScanLine;
    if n > 0 { LinesAgree(a, b, n - 1); }
  }

  function CaptureLines(cpuset: set<nat>, cpus: seq<nat>, coreOf: map<nat, set<nat>>, n: nat): (lines: seq<Line>)
    requires n <= |cpus| && forall i :: 0 <= i < n ==> cpus[i] in coreOf
    ensures |lines| == n + 2
  {
    [CpusetLine(Formatted(cpuset)), OnlineLine(Formatted(coreOf.Keys))] + SiblingLines(cpus, coreOf, n)
  }

  lemma ScanHead(cpuset: set<nat>, cpus: seq<nat>, coreOf: map<nat, set<nat>>)
    requires cpuset != {} && coreOf.Keys != {}
    ensures ScanTo(CaptureLines(cpuset, cpus, coreOf, 0), 2)
         == Ok(Scan(Some(Formatted(cpuset)), Some(Formatted(coreOf.Keys)), map[]))
  {
    hide Formatted, Canonicalize;
    PrintedCanonicalizes(cpuset);
    PrintedCanonicalizes(coreOf.Keys);
    var lines := CaptureLines(cpuset, cpus, coreOf, 0);
    assert ScanTo(lines, 1) == ScanLine(Scan(None, None, map[]), lines[0]);
    assert ScanTo(lines, 1) == Ok(Scan(Some(Formatted(cpuset)), None, map[]));
  }

  lemma ScanOneCore(lines: seq<Line>, n: nat, cpu: nat, text: string)
    requires n < |lines| && lines[n] == SiblingLine(cpu, text) && Canonicalize(text) == Ok(text)
    requires ScanTo(lines, n).Ok?
    requires var perCpu := ScanTo(lines, n).value.perCpu; cpu in perCpu ==> perCpu[cpu] == text
    ensures var s := ScanTo(lines, n).value; ScanTo(lines, n + 1) == Ok(s.(perCpu := s.perCpu[cpu := text]))
  {
    hide Canonicalize;
  }

  lemma {:induction false} ScanCores(cpuset: set<nat>, cpus: seq<nat>, coreOf: map<nat, set<nat>>, n: nat)
    requires cpuset != {} && coreOf.Keys != {} && Cores(cpus, coreOf) && n <= |cpus|
    ensures ScanTo(CaptureLines(cpuset, cpus, coreOf, n), n + 2)
         == Ok(Scan(Some(Formatted(cpuset)), Some(Formatted(coreOf.Keys)), PrintedCores(cpus, coreOf, n)))
  {
    hide Formatted, Canonicalize, SetOf;
    if n == 0 {
      ScanHead(cpuset, cpus, coreOf);
    } else {
      hide ScanTo;
      var lines, cpu := CaptureLines(cpuset, cpus, coreOf, n), cpus[n - 1];
      ScanCores(cpuset, cpus, coreOf, n - 1);
      LinesAgree(CaptureLines(cpuset, cpus, coreOf, n - 1), lines, n + 1);
      PrintedCanonicalizes(coreOf[cpu]);
      PrintedCoresAre(cpus, coreOf, n - 1);
      assert lines[n + 1] == SiblingLine(cpu, Formatted(coreOf[cpu]));
      ScanOneCore(lines, n + 1, cpu, Formatted(coreOf[cpu]));
    }
  }

  lemma PrintedSymmetric(cpus: seq<nat>, coreOf: map<nat, set<nat>>)
    requires Cores(cpus, coreOf)
    ensures var perCpu := PrintedCores(cpus, coreOf, |cpus|); perCpu.Keys == coreOf.Keys && Symmetric(perCpu)
  {
    hide Formatted, SetOf;
    PrintedCoresAre(cpus, coreOf, |cpus|);
    var perCpu := PrintedCores(cpus, coreOf, |cpus|);
    hide PrintedCores;
    assert perCpu.Keys == coreOf.Keys;
    forall cpu | cpu in perCpu ensures SharesGroup(perCpu, cpu) {
      PrintedCanonicalizes(coreOf[cpu]);
    }
  }

  /** A capture that prints a genuine assignment of CPUs to cores is always accepted, whatever the order
      of the CPUs and however often one is printed. */
  lemma GenuineTopologyAccepted(cpuset: set<nat>, cpus: seq<nat>, coreOf: map<nat, set<nat>>)
    requires cpuset != {} && coreOf.Keys != {} && Cores(cpus, coreOf)
    ensures var lines := CaptureLines(cpuset, cpus, coreOf, |cpus|);
      ScanTo(lines, |lines|).Ok? && AcceptableScan(ScanTo(lines, |lines|).value)
  {
    hide Formatted, SetOf, ScanTo, Symmetric, Cores, PrintedCores;
    ScanCores(cpuset, cpus, coreOf, |cpus|);
    PrintedSymmetric(cpus, coreOf);
    PrintedCanonicalizes(coreOf.Keys);
  }

  lemma GroupsDisjoint(perCpu: map<nat, string>, a: nat, b: nat)
    requires Symmetric(perCpu) && a in perCpu && b in perCpu && perCpu[a] != perCpu[b]
    ensures SetOf(perCpu[a]) !! SetOf(perCpu[b])
  {
    hide SetOf;
    assert SharesGroup(perCpu, a) && SharesGroup(perCpu, b);
  }

  lemma GroupWithin(perCpu: map<nat, string>, a: nat)
    requires Symmetric(perCpu) && a in perCpu
    ensures SetOf(perCpu[a]) <= perCpu.Keys
  {
    hide SetOf;
    assert SharesGroup(perCpu, a);
  }

  lemma OwnGroup(perCpu: map<nat, string>, cpu: nat)
    requires Symmetric(perCpu) && cpu in perCpu
    ensures cpu in SetOf(perCpu[cpu])
  {
    assert SharesGroup(perCpu, cpu);
  }

  // ----- the snapshot's nodes -----

  /** A node as recorded; None stands for a missing key or a value of the wrong type. */
  datatype RawNode = RawNode(
    online: Option<string>, reserved: Option<string>, groups: Option<seq<Option<string>>>, authoritative: bool)

  datatype NodeState = NodeState(
    online: set<nat>, reserved: set<nat>, groups: seq<set<nat>>, groupOf: map<nat, set<nat>>)

  function Given(text: Option<string>): Option<set<nat>> {
    match text
    case None => None
    case Some(t) => (match Parsed(t) case Err(_) => None case Ok(cpus) => Some(cpus))
  }

  /** The parsed sibling groups, when every one of them parses. */
  function GroupsTo(raw: seq<Option<string>>, n: nat): (r: Option<seq<set<nat>>>)
    requires n <= |raw|
    ensures r.Some? ==> |r.value| == n
    ensures r.Some? <==> forall i :: 0 <= i < n ==> Given(raw[i]).Some?
  {
    if n == 0 then Some([]) else
    match GroupsTo(raw, n - 1)
    case None => None
    case Some(gs) => (match Given(raw[n - 1]) case None => None case Some(g) => Some(gs + [g]))
  }

  ghost predicate PartitionOf(groups: seq<set<nat>>, online: set<nat>) {
    && (forall i :: 0 <= i < |groups| ==> groups[i] <= online)
    && (forall i, j :: 0 <= i < |groups| && 0 <= j < |groups| ==> groups[i] == groups[j] || groups[i] !! groups[j])
    && (forall cpu :: cpu in online ==> exists i :: 0 <= i < |groups| && cpu in groups[i])
  }

  /** Exactly the nodes the gate can reason about. */
  ghost predicate NodeWellFormed(raw: RawNode) {
    && Given(raw.online).Some? && Given(raw.reserved).Some?
    && Given(raw.reserved).value <= Given(raw.online).value
    && raw.groups.Some? && |raw.groups.value| > 0
    && GroupsTo(raw.groups.value, |raw.groups.value|).Some?
    && PartitionOf(GroupsTo(raw.groups.value, |raw.groups.value|).value, Given(raw.online).value)
  }

  /** The state describes the raw node, and each online CPU's group is the one that contains it. */
  ghost predicate Describes(state: NodeState, raw: RawNode) {
    && NodeWellFormed(raw)
    && Some(state.online) == Given(raw.online) && Some(state.reserved) == Given(raw.reserved)
    && Some(state.groups) == GroupsTo(raw.groups.value, |raw.groups.value|)
    && state.groupOf.Keys == state.online
    && (forall cpu :: cpu in state.online ==> cpu in state.groupOf[cpu] && state.groupOf[cpu] in state.groups)
  }

  /** Enters one group into the map; None when a CPU already belongs to a different group. */
  method EnterGroup(groupOf: map<nat, set<nat>>, group: set<nat>) returns (r: Option<map<nat, set<nat>>>)
    ensures r.Some? <==> forall cpu :: cpu in group && cpu in groupOf ==> groupOf[cpu] == group
    ensures r.Some? ==> r.value.Keys == groupOf.Keys + group
    ensures r.Some? ==> forall cpu :: cpu in r.value ==> r.value[cpu] == if cpu in group then group else groupOf[cpu]
  {
    var entered := groupOf;
    var todo := group;
    while todo != {}
      invariant todo <= group
      invariant entered.Keys == groupOf.Keys + (group - todo)
      invariant forall cpu :: cpu in entered ==> entered[cpu] == if cpu in group - todo then group else groupOf[cpu]
      invariant forall cpu :: cpu in group - todo && cpu in groupOf ==> groupOf[cpu] == group
    {
      var cpu :| cpu in todo;
      if cpu in entered && entered[cpu] != group { return None; }
      entered := entered[cpu := group];
      todo := todo - {cpu};
    }
    return Some(entered);
  }

  /** Enters every group; succeeds exactly on a partition of the online CPUs. */
  method EnterGroups(groups: seq<set<nat>>, online: set<nat>) returns (r: Option<map<nat, set<nat>>>)
    ensures r.Some? <==> PartitionOf(groups, online)
    ensures r.Some? ==> r.value.Keys == online
    ensures r.Some? ==> forall cpu :: cpu in online ==> cpu in r.value[cpu] && r.value[cpu] in groups
  {
    var groupOf: map<nat, set<nat>> := map[];
    for i := 0 to |groups|
      invariant forall k :: 0 <= k < i ==> groups[k] <= online
      invariant forall j, k :: 0 <= j < i && 0 <= k < i ==> groups[j] == groups[k] || groups[j] !! groups[k]
      invariant forall cpu :: cpu in groupOf <==> exists k :: 0 <= k < i && cpu in groups[k]
      invariant forall cpu, k :: 0 <= k < i && cpu in groups[k] ==> groupOf[cpu] == groups[k]
    {
      if !(groups[i] <= online) { return None; }
      var entered := EnterGroup(groupOf, groups[i]);
      if entered.None? { return None; }
      groupOf := entered.value;
    }
    if !(online <= groupOf.Keys) { return None; }
    return Some(groupOf);
  }

  method BuildNode(raw: RawNode) returns (r: Option<NodeState>)
    ensures r.Some? <==> NodeWellFormed(raw)
    ensures r.Some? ==> Describes(r.value, raw)
  {
    hide GroupsTo, Given, PartitionOf;
    var online, reserved := Given(raw.online), Given(raw.reserved);
    if online.None? || reserved.None? || !(reserved.value <= online.value) { return None; }
    if raw.groups.None? || |raw.groups.value| == 0 { return None; }
    var groups := GroupsTo(raw.groups.value, |raw.groups.value|);
    if groups.None? { return None; }
    var groupOf := EnterGroups(groups.value, online.value);
    if groupOf.None? { return None; }
    return Some(NodeState(online.value, reserved.value, groups.value, groupOf.value));
  }

  lemma {:induction false} GroupsGiven(raw: seq<Option<string>>, n: nat)
    requires n <= |raw| && GroupsTo(raw, n).Some?
    ensures forall i :: 0 <= i < n ==> Some(GroupsTo(raw, n).value[i]) == Given(raw[i])
  {
    hide Given;
    if n > 0 { GroupsGiven(raw, n - 1); }
  }

  lemma GivenCanonical(text: string)
    requires CanonicalText(text)
    ensures Given(Some(text)) == Some(SetOf(text)) && SetOf(text) != {}
  {
  }

  lemma GroupFacts(s: Scan, g: string)
    requires CanonicalScan(s) && AcceptableScan(s) && g in s.perCpu.Values
    ensures Given(Some(g)) == Some(SetOf(g)) && SetOf(g) != {} && SetOf(g) <= SetOf(s.online.value)
  {
    hide Parsed, Formatted, SetOf, Given, CanonicalText, Symmetric;
    var cpu :| cpu in s.perCpu && s.perCpu[cpu] == g;
    GroupWithin(s.perCpu, cpu);
    GivenCanonical(g);
  }

  lemma GroupPair(s: Scan, g: string, h: string)
    requires AcceptableScan(s) && g in s.perCpu.Values && h in s.perCpu.Values && g != h
    ensures SetOf(g) !! SetOf(h)
  {
    hide SetOf, Symmetric;
    var a :| a in s.perCpu && s.perCpu[a] == g;
    var b :| b in s.perCpu && s.perCpu[b] == h;
    GroupsDisjoint(s.perCpu, a, b);
  }

  /** However listed, the groups of an accepted sibling map partition the online CPUs. */
  lemma GroupsPartition(s: Scan, texts: seq<string>, groups: seq<set<nat>>)
    requires CanonicalScan(s) && AcceptableScan(s)
    requires forall g :: g in s.perCpu.Values <==> g in texts
    requires |groups| == |texts| && forall i :: 0 <= i < |texts| ==> groups[i] == SetOf(texts[i])
    ensures PartitionOf(groups, SetOf(s.online.value)) && |groups| > 0
    ensures forall i :: 0 <= i < |groups| ==> groups[i] != {}
  {
    hide SetOf, Given, CanonicalText, Symmetric, Parsed, Formatted;
    var online := SetOf(s.online.value);
    forall i | 0 <= i < |groups| ensures groups[i] != {} && groups[i] <= online {
      assert texts[i] in texts;
      GroupFacts(s, texts[i]);
    }
    forall i, j | 0 <= i < |groups| && 0 <= j < |groups| ensures groups[i] == groups[j] || groups[i] !! groups[j] {
      assert texts[i] in texts && texts[j] in texts;
      if texts[i] != texts[j] { GroupPair(s, texts[i], texts[j]); }
    }
    forall cpu | cpu in online ensures exists i :: 0 <= i < |groups| && cpu in groups[i] {
      OwnGroup(s.perCpu, cpu);
      assert s.perCpu[cpu] in s.perCpu.Values;
      var i :| 0 <= i < |texts| && texts[i] == s.perCpu[cpu];
      assert cpu in groups[i];
    }
    GivenCanonical(s.online.value);
    var some :| some in online;
    assert |groups| > 0;
  }

  /** The node as the live capture records it: the scanned online list and groups, and a reserved list
      that parses to online CPUs. */
  ghost predicate RecordedFrom(raw: RawNode, s: Scan, texts: seq<string>) {
    && raw.online == s.online
    && (match Given(raw.reserved) case None => false case Some(reserved) => reserved <= s.perCpu.Keys)
    && raw.groups.Some? && |raw.groups.value| == |texts|
    && (forall i :: 0 <= i < |texts| ==> raw.groups.value[i] == Some(texts[i]))
    && (forall g :: g in s.perCpu.Values <==> g in texts)
  }

  /** Sibling groups taken from an accepted capture, listed in any order, always pass the node checks. */
  lemma CapturedNodeWellFormed(s: Scan, texts: seq<string>, raw: RawNode)
    requires RecordedFrom(raw, s, texts)
    requires CanonicalScan(s) && AcceptableScan(s)
    ensures NodeWellFormed(raw)
  {
    hide GroupsTo, Given, SetOf, CanonicalScan, Symmetric, PartitionOf;
    var listed := raw.groups.value;
    OnlineGiven(s);
    forall i | 0 <= i < |texts| ensures Given(listed[i]) == Some(SetOf(texts[i])) {
      assert texts[i] in texts;
      GroupFacts(s, texts[i]);
    }
    GroupsGiven(listed, |listed|);
    GroupsPartition(s, texts, GroupsTo(listed, |listed|).value);
  }

  lemma OnlineGiven(s: Scan)
    requires CanonicalScan(s) && AcceptableScan(s)
    ensures Given(s.online) == Some(SetOf(s.online.value))
  {
    GivenCanonical(s.online.value);
  }
}
