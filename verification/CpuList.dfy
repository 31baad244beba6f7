/** The Linux cpulist syntax: parsing it, and printing it canonically. */
module CpuList {
  import opened Common
  import opened Text

  datatype EvidenceError = EmptyList | InvalidToken | DescendingRange

  /** The CPUs `first` to `last`, both included. */
  datatype Range = Range(first: nat, last: nat)

  function Cpus(r: Range): (cpus: set<nat>)
    ensures forall c: nat :: c in cpus <==> r.first <= c <= r.last
    decreases r.last + 1 - r.first
  {
    if r.last < r.first then {} else {r.first} + Cpus(Range(r.first + 1, r.last))
  }

  // ----- parsing -----

  /** What `str.strip` removes. */
  predicate IsSpace(c: char) {
    var n := c as int;
    || 9 <= n <= 13 || 28 <= n <= 32 || n == 0x85 || n == 0xA0 || n == 0x1680
    || 0x2000 <= n <= 0x200A || n == 0x2028 || n == 0x2029 || n == 0x202F || n == 0x205F || n == 0x3000
  }

  function Strip(s: string): string {
    if |s| == 0 then s
    else if IsSpace(s[0]) then Strip(s[1..])
    else if IsSpace(s[|s| - 1]) then Strip(s[..|s| - 1])
    else s
  }

  /** One token: digits, or digits, a dash and digits; a range must not descend. */
  function TokenRange(token: string): Result<Range, EvidenceError> {
    var pieces := Split(token, '-');
    if |pieces| > 2 || exists i :: 0 <= i < |pieces| && (|pieces[i]| == 0 || !AllDigits(pieces[i]))
    then Err(InvalidToken)
    else if |pieces| == 1 then Ok(Range(ParseNat(pieces[0]), ParseNat(pieces[0])))
    else
      var first, last := ParseNat(pieces[0]), ParseNat(pieces[1]);
      if last < first then Err(DescendingRange) else Ok(Range(first, last))
  }

  /** The CPUs of the first `n` tokens, or the first error among them. */
  function TokensTo(tokens: seq<string>, n: nat): Result<set<nat>, EvidenceError>
    requires n <= |tokens|
  {
    if n == 0 then Ok({}) else
    match TokensTo(tokens, n - 1)
    case Err(e) => Err(e)
    case Ok(cpus) =>
      match TokenRange(Strip(tokens[n - 1]))
      case Err(e) => Err(e)
      case Ok(r) => Ok(cpus + Cpus(r))
  }

  function Parsed(value: string): Result<set<nat>, EvidenceError> {
    if |Strip(value)| == 0 then Err(EmptyList) else
    var tokens := Split(Strip(value), ',');
    TokensTo(tokens, |tokens|)
  }

  lemma {:induction false} FirstError(tokens: seq<string>, n: nat, m: nat)
    requires n <= m <= |tokens| && TokensTo(tokens, n).Err?
    ensures TokensTo(tokens, m) == TokensTo(tokens, n)
  {
    if n < m { FirstError(tokens, n, m - 1); }
  }

  method ParseCpuList(value: string) returns (r: Result<set<nat>, EvidenceError>)
    ensures r == Parsed(value)
  {
    if |Strip(value)| == 0 { return Err(EmptyList); }
    var tokens := Split(Strip(value), ',');
    var cpus: set<nat> := {};
    for i := 0 to |tokens|
      invariant TokensTo(tokens, i) == Ok(cpus)
    {
      match TokenRange(Strip(tokens[i])) {
        case Err(e) =>
          FirstError(tokens, i + 1, |tokens|);
          return Err(e);
        case Ok(range) =>
          cpus := cpus + Cpus(range);
      }
    }
    return Ok(cpus);
  }

  /** An accepted list names at least one CPU. */
  lemma AcceptedNonEmpty(value: string)
    requires Parsed(value).Ok?
    ensures Parsed(value).value != {}
  {
    var tokens := Split(Strip(value), ',');
    var n := |tokens|;
    var r := TokenRange(Strip(tokens[n - 1])).value;
    assert r.first in Cpus(r);
  }

  // ----- the accepted language -----

  predicate Numeral(t: string) { |t| > 0 && AllDigits(t) }

  /** `t` is two numerals joined by a dash. */
  ghost predicate Pair(t: string, a: string, b: string) {
    t == a + ['-'] + b && Numeral(a) && Numeral(b)
  }

  /** The token `t` writes the range `r`: its numeral, or its ends in ascending order around a dash. */
  ghost predicate Denotes(t: string, r: Range) {
    || (Numeral(t) && r.first == r.last == ParseNat(t))
    || exists a, b :: Pair(t, a, b) && r.first == ParseNat(a) <= ParseNat(b) == r.last
  }

  ghost predicate Descends(t: string) {
    exists a, b :: Pair(t, a, b) && ParseNat(b) < ParseNat(a)
  }

  lemma PairReads(t: string, a: string, b: string)
    requires Pair(t, a, b)
    ensures Split(t, '-') == [a, b] && !Numeral(t)
  {
    DigitsHoldNoDash(a);
    DigitsHoldNoDash(b);
    SplitPlain(b, '-');
    SplitAfter(a, b, '-');
    assert t[|a|] == '-';
  }

  /** A token is read as what it writes, and refused as descending exactly when its ends descend. */
  lemma TokenExactly(t: string, r: Range)
    ensures TokenRange(t) == Ok(r) <==> Denotes(t, r)
    ensures TokenRange(t) == Err(DescendingRange) <==> Descends(t)
  {
    var pieces := Split(t, '-');
    JoinSplit(t, '-');
    if Numeral(t) {
      DigitsHoldNoDash(t);
      SplitPlain(t, '-');
    }
    forall a, b | Pair(t, a, b) ensures pieces == [a, b] && !Numeral(t) {
      PairReads(t, a, b);
    }
    if |pieces| == 2 {
      assert pieces[1..] == [pieces[1]];
      assert t == pieces[0] + ['-'] + pieces[1];
      if Numeral(pieces[0]) && Numeral(pieces[1]) { assert Pair(t, pieces[0], pieces[1]); }
    }
  }

  /** The list `value` writes the ranges: one token each between commas, with blanks allowed around. */
  ghost predicate Writes(value: string, tokens: seq<string>, runs: seq<Range>) {
    && |tokens| == |runs| && Separable(tokens, ',') && Join(tokens, ',') == Strip(value)
    && forall i :: 0 <= i < |runs| ==> Denotes(Strip(tokens[i]), runs[i])
  }

  /** A list is accepted exactly when it writes some ranges... */
  lemma AcceptedExactly(value: string)
    ensures Parsed(value).Ok? <==> exists tokens, runs :: Writes(value, tokens, runs)
  {
    if Parsed(value).Ok? {
      var tokens := Split(Strip(value), ',');
      JoinSplit(Strip(value), ',');
      var runs := TokensRead(tokens, |tokens|);
      forall i | 0 <= i < |runs| ensures Denotes(Strip(tokens[i]), runs[i]) {
        TokenExactly(Strip(tokens[i]), runs[i]);
      }
      assert Writes(value, tokens, runs);
    }
    if tokens, runs :| Writes(value, tokens, runs) {
      AcceptedValue(value, tokens, runs);
    }
  }

  /** ...and then it stands for the union of those ranges. */
  lemma AcceptedValue(value: string, tokens: seq<string>, runs: seq<Range>)
    requires Writes(value, tokens, runs)
    ensures Parsed(value).Ok?
    ensures forall c: nat :: c in Parsed(value).value <==> Covered(runs, c)
  {
    hide Strip, Covered, TokenRange, Denotes, TokensTo;
    forall i | 0 <= i < |runs| ensures TokenRange(Strip(tokens[i])) == Ok(runs[i]) {
      TokenExactly(Strip(tokens[i]), runs[i]);
    }
    SplitJoin(tokens, ',');
    WrittenNotBlank(value, tokens, runs);
    TokensCovered(runs, tokens, |runs|);
    assert runs[..|runs|] == runs;
  }

  lemma {:induction false} FirstBadToken(tokens: seq<string>, n: nat) returns (i: nat)
    requires n <= |tokens| && TokensTo(tokens, n).Err?
    ensures i < n && TokenRange(Strip(tokens[i])) == Err(TokensTo(tokens, n).error)
    ensures forall j :: 0 <= j < i ==> TokenRange(Strip(tokens[j])).Ok?
  {
    hide TokenRange;
    if TokensTo(tokens, n - 1).Err? {
      i := FirstBadToken(tokens, n - 1);
    } else {
      i := n - 1;
      var _ := TokensRead(tokens, n - 1);
    }
  }

  /** A refused list is blank, or its first token that writes no range is named: as descending when its ends are,
      and as invalid otherwise. */
  lemma RefusedExactly(value: string) returns (i: nat)
    requires Parsed(value).Err?
    ensures Parsed(value) == Err(EmptyList) <==> Strip(value) == ""
    ensures Strip(value) != "" ==> var tokens := Split(Strip(value), ',');
      && i < |tokens| && !WritesSome(Strip(tokens[i])) && (forall j :: 0 <= j < i ==> WritesSome(Strip(tokens[j])))
      && Parsed(value) == Err(if Descends(Strip(tokens[i])) then DescendingRange else InvalidToken)
  {
    i := 0;
    if Strip(value) != "" {
      var tokens := Split(Strip(value), ',');
      i := FirstBadToken(tokens, |tokens|);
      NotEmptyError(Strip(tokens[i]));
      TokenWrites(Strip(tokens[i]));
      hide WritesSome;
      TokenExactly(Strip(tokens[i]), Range(0, 0));
      forall j | 0 <= j < i ensures WritesSome(Strip(tokens[j])) { TokenWrites(Strip(tokens[j])); }
    }
  }

  ghost predicate WritesSome(t: string) { exists r :: Denotes(t, r) }

  lemma TokenWrites(t: string)
    ensures TokenRange(t).Ok? <==> WritesSome(t)
  {
    hide TokenRange, Denotes;
    if TokenRange(t).Ok? {
      TokenExactly(t, TokenRange(t).value);
      assert Denotes(t, TokenRange(t).value);
    }
    if r :| Denotes(t, r) { TokenExactly(t, r); }
  }

  lemma NotEmptyError(t: string)
    ensures TokenRange(t) != Err(EmptyList)
  {
  }

  lemma WrittenNotBlank(value: string, tokens: seq<string>, runs: seq<Range>)
    requires Writes(value, tokens, runs)
    ensures |Strip(value)| > 0
  {
    SplitJoin(tokens, ',');
    assert |Strip(value)| == 0 ==> tokens == [""] && Strip(tokens[0]) == "";
    assert !Denotes("", runs[0]);
  }

  lemma {:induction false} TokensRead(tokens: seq<string>, n: nat) returns (runs: seq<Range>)
    requires n <= |tokens| && TokensTo(tokens, n).Ok?
    ensures |runs| == n && forall i :: 0 <= i < n ==> TokenRange(Strip(tokens[i])) == Ok(runs[i])
  {
    if n == 0 { return []; }
    var before := TokensRead(tokens, n - 1);
    return before + [TokenRange(Strip(tokens[n - 1])).value];
  }

  ghost predicate Blank(s: string) { forall i :: 0 <= i < |s| ==> IsSpace(s[i]) }

  /** `Strip` takes off blanks at both ends, and all of them. */
  lemma {:induction false} StripExactly(s: string) returns (a: string, b: string)
    ensures Blank(a) && Blank(b) && s == a + Strip(s) + b
    ensures |Strip(s)| > 0 ==> !IsSpace(Strip(s)[0]) && !IsSpace(Strip(s)[|Strip(s)| - 1])
  {
    hide IsSpace;
    var n := |s| - 1;
    a, b := "", "";
    if |s| > 0 && IsSpace(s[0]) {
      var rest := s[1..];
      assert s == [s[0]] + rest && Strip(s) == Strip(rest);
      a, b := StripExactly(rest);
      a := [s[0]] + a;
      hide Strip;
    } else if |s| > 0 && IsSpace(s[n]) {
      var rest := s[..n];
      assert s == rest + [s[n]] && Strip(s) == Strip(rest);
      a, b := StripExactly(rest);
      b := b + [s[n]];
      hide Strip;
    }
  }

  // ----- printing -----

  ghost predicate Ascending(ordered: seq<nat>) {
    forall i, j :: 0 <= i < j < |ordered| ==> ordered[i] < ordered[j]
  }

  ghost function MinOf(cpus: set<nat>): (m: nat)
    requires cpus != {}
    ensures m in cpus && forall c :: c in cpus ==> m <= c
  {
    var x :| x in cpus;
    if cpus == {x} then x else
    var others := cpus - {x};
    var m := MinOf(others);
    assert forall c :: c in cpus && c != x ==> c in others;
    if m < x then m else x
  }

  function Least(cpus: set<nat>): (m: nat)
    requires cpus != {}
    ensures m in cpus && forall c :: c in cpus ==> m <= c
  {
    assert MinOf(cpus) in cpus;
    var m :| m in cpus && forall c :: c in cpus ==> m <= c;
    m
  }

  /** `sorted` of a set. */
  function SortedCpus(cpus: set<nat>): (ordered: seq<nat>)
    ensures Ascending(ordered)
    ensures forall c :: c in ordered <==> c in cpus
    ensures |ordered| == |cpus|
    decreases |cpus|
  {
    if cpus == {} then [] else
    var rest := SortedCpus(cpus - {Least(cpus)});
    assert forall i :: 0 <= i < |rest| ==> rest[i] in rest;
    [Least(cpus)] + rest
  }

  /** The maximal runs of consecutive numbers. */
  function Runs(ordered: seq<nat>): (runs: seq<Range>)
    ensures |runs| == 0 <==> |ordered| == 0
    ensures |ordered| > 0 ==> runs[|runs| - 1].last == ordered[|ordered| - 1]
  {
    if |ordered| == 0 then [] else
    var n := |ordered| - 1;
    var before := Runs(ordered[..n]);
    var k := |before| - 1;
    if n > 0 && ordered[n] == before[k].last + 1
    then before[..k] + [Range(before[k].first, ordered[n])]
    else before + [Range(ordered[n], ordered[n])]
  }

  function ShowRange(r: Range): string {
    if r.first == r.last then ShowNat(r.first) else ShowNat(r.first) + ['-'] + ShowNat(r.last)
  }

  function ShowRanges(runs: seq<Range>): (texts: seq<string>)
    ensures |texts| == |runs|
  {
    seq(|runs|, i requires 0 <= i < |runs| => ShowRange(runs[i]))
  }

  function Formatted(cpus: set<nat>): string {
    if cpus == {} then "" else Join(ShowRanges(Runs(SortedCpus(cpus))), ',')
  }

  lemma RunsExtend(ordered: seq<nat>, i: nat)
    requires 0 < i < |ordered|
    ensures var before, after, k := Runs(ordered[..i]), Runs(ordered[..i + 1]), |Runs(ordered[..i])| - 1;
      after == if ordered[i] == before[k].last + 1 then before[..k] + [Range(before[k].first, ordered[i])]
               else before + [Range(ordered[i], ordered[i])]
  {
    assert ordered[..i + 1][..i] == ordered[..i];
  }

  lemma ShowRangesAppend(runs: seq<Range>, r: Range)
    ensures ShowRanges(runs + [r]) == ShowRanges(runs) + [ShowRange(r)]
  {
  }

  method FormatCpuList(cpus: set<nat>) returns (text: string)
    ensures text == Formatted(cpus)
  {
    var ordered := SortedCpus(cpus);
    if |ordered| == 0 { return ""; }
    var ranges: seq<string> := [];
    var first, previous := ordered[0], ordered[0];
    ghost var done: seq<Range> := [];
    assert ordered[..1] == [ordered[0]] && ordered[..1][..0] == [];
    assert Runs(ordered[..1]) == done + [Range(first, previous)];
    hide Runs, ShowRanges, ShowNat, Join;
    ShowRangesNone();
    for i := 1 to |ordered|
      invariant Runs(ordered[..i]) == done + [Range(first, previous)]
      invariant ranges == ShowRanges(done)
    {
      var cpu := ordered[i];
      RunsExtend(ordered, i);
      if cpu == previous + 1 {
        assert (done + [Range(first, previous)])[..|done|] == done;
        previous := cpu;
      } else {
        ShowRangesAppend(done, Range(first, previous));
        ranges := ranges + [if first == previous then ShowNat(first) else ShowNat(first) + ['-'] + ShowNat(previous)];
        done := done + [Range(first, previous)];
        first, previous := cpu, cpu;
      }
    }
    assert ordered[..|ordered|] == ordered;
    ShowRangesAppend(done, Range(first, previous));
    ranges := ranges + [if first == previous then ShowNat(first) else ShowNat(first) + ['-'] + ShowNat(previous)];
    return Join(ranges, ',');
  }

  lemma ShowRangesNone()
    ensures ShowRanges([]) == []
  {
  }

  // ----- canonical form -----

  /** Ascending ranges with at least one missing number between neighbours. */
  ghost predicate Canonical(runs: seq<Range>) {
    && (forall i :: 0 <= i < |runs| ==> runs[i].first <= runs[i].last)
    && (forall i, j :: 0 <= i < j < |runs| ==> runs[i].last + 1 < runs[j].first)
  }

  ghost predicate Covered(runs: seq<Range>, c: nat) {
    exists i :: 0 <= i < |runs| && runs[i].first <= c <= runs[i].last
  }

  lemma CoveredAppend(runs: seq<Range>, r: Range, c: nat)
    ensures Covered(runs + [r], c) <==> Covered(runs, c) || r.first <= c <= r.last
  {
    if Covered(runs, c) {
      var i :| 0 <= i < |runs| && runs[i].first <= c <= runs[i].last;
      assert (runs + [r])[i] == runs[i];
    }
    assert (runs + [r])[|runs|] == r;
  }

  /** One more number, above all before, lengthens the last run or starts a new one. */
  ghost predicate Extends(before: seq<Range>, x: nat, runs: seq<Range>) {
    if |before| > 0 && x == before[|before| - 1].last + 1
    then runs == before[..|before| - 1] + [Range(before[|before| - 1].first, x)]
    else runs == before + [Range(x, x)]
  }

  lemma RunsGrow(ordered: seq<nat>)
    requires |ordered| > 0
    ensures Extends(Runs(ordered[..|ordered| - 1]), ordered[|ordered| - 1], Runs(ordered))
  {
  }

  lemma ExtendsCanonical(before: seq<Range>, x: nat, runs: seq<Range>)
    requires Canonical(before) && Extends(before, x, runs)
    requires forall i :: 0 <= i < |before| ==> before[i].last < x
    ensures Canonical(runs)
  {
  }

  lemma ExtendsCovered(before: seq<Range>, x: nat, runs: seq<Range>, c: nat)
    requires Canonical(before) && Extends(before, x, runs)
    ensures Covered(runs, c) <==> Covered(before, c) || c == x
  {
    if |before| > 0 && x == before[|before| - 1].last + 1 {
      var k := |before| - 1;
      assert before == before[..k] + [before[k]];
      CoveredAppend(before[..k], before[k], c);
      CoveredAppend(before[..k], Range(before[k].first, x), c);
    } else {
      CoveredAppend(before, Range(x, x), c);
    }
  }

  lemma RunsBelow(ordered: seq<nat>, runs: seq<Range>)
    requires Ascending(ordered) && |ordered| > 0 && Canonical(runs)
    requires forall c: nat :: Covered(runs, c) <==> c in ordered[..|ordered| - 1]
    ensures forall i :: 0 <= i < |runs| ==> runs[i].last < ordered[|ordered| - 1]
  {
    forall i | 0 <= i < |runs| ensures runs[i].last < ordered[|ordered| - 1] {
      assert Covered(runs, runs[i].last);
    }
  }

  /** The runs are canonical and cover exactly the set... */
  lemma {:induction false} RunsCanonical(ordered: seq<nat>)
    requires Ascending(ordered)
    ensures Canonical(Runs(ordered))
    ensures forall c: nat :: Covered(Runs(ordered), c) <==> c in ordered
  {
    if |ordered| == 0 {
      NothingCovered(Runs(ordered));
    } else {
      hide Runs, Canonical, Covered, Extends;
      var n := |ordered| - 1;
      RunsCanonical(ordered[..n]);
      RunsBelow(ordered, Runs(ordered[..n]));
      RunsGrow(ordered);
      ExtendsCanonical(Runs(ordered[..n]), ordered[n], Runs(ordered));
      forall c: nat ensures Covered(Runs(ordered), c) <==> c in ordered {
        ExtendsCovered(Runs(ordered[..n]), ordered[n], Runs(ordered), c);
        LastOrBefore(ordered, c);
      }
    }
  }

  lemma LastOrBefore(ordered: seq<nat>, c: nat)
    requires |ordered| > 0
    ensures c in ordered <==> c in ordered[..|ordered| - 1] || c == ordered[|ordered| - 1]
  {
    assert ordered == ordered[..|ordered| - 1] + [ordered[|ordered| - 1]];
  }

  /** ...and no other canonical list of ranges does: the printed form is the only one. */
  lemma {:induction false} CanonicalUnique(a: seq<Range>, b: seq<Range>)
    requires Canonical(a) && Canonical(b)
    requires forall c: nat :: Covered(a, c) <==> Covered(b, c)
    ensures a == b
  {
    if |a| == 0 || |b| == 0 {
      assert |a| > 0 ==> Covered(a, a[0].first);
      assert |b| > 0 ==> Covered(b, b[0].first);
    } else {
      var m, n := |a| - 1, |b| - 1;
      LastRange(a, b);
      LastRange(b, a);
      assert a == a[..m] + [a[m]] && b == b[..n] + [b[n]];
      forall c: nat ensures Covered(a[..m], c) <==> Covered(b[..n], c) {
        CoveredAppend(a[..m], a[m], c);
        CoveredAppend(b[..n], b[n], c);
      }
      CanonicalUnique(a[..m], b[..n]);
    }
  }

  /** The last range of one reaches at least as far, both ways, as the last range of the other. */
  lemma LastRange(a: seq<Range>, b: seq<Range>)
    requires Canonical(a) && Canonical(b) && |a| > 0 && |b| > 0
    requires forall c: nat :: Covered(a, c) <==> Covered(b, c)
    ensures a[|a| - 1].last >= b[|b| - 1].last
    ensures a[|a| - 1].last == b[|b| - 1].last ==> a[|a| - 1].first <= b[|b| - 1].first
  {
    var p, q := a[|a| - 1], b[|b| - 1];
    assert Covered(b, q.last);
    var i :| 0 <= i < |a| && a[i].first <= q.last <= a[i].last;
    if p.first > 0 {
      assert !Covered(a, p.first - 1);
      assert q.first <= p.first - 1 <= q.last ==> Covered(b, p.first - 1);
    }
  }

  // ----- round trip -----

  lemma ShowRangePlain(r: Range)
    requires r.first <= r.last
    ensures |ShowRange(r)| > 0
    ensures forall i :: 0 <= i < |ShowRange(r)| ==> IsDigit(ShowRange(r)[i]) || ShowRange(r)[i] == '-'
    ensures TokenRange(ShowRange(r)) == Ok(r)
  {
    var f, l := ShowNat(r.first), ShowNat(r.last);
    ParseShow(r.first);
    ParseShow(r.last);
    DigitsHoldNoDash(f);
    DigitsHoldNoDash(l);
    if r.first == r.last {
      SplitPlain(f, '-');
    } else {
      SplitPlain(l, '-');
      SplitAfter(f, l, '-');
      assert Split(f + ['-'] + l, '-') == [f, l];
    }
  }

  lemma DigitsHoldNoDash(s: string)
    requires AllDigits(s)
    ensures !Contains(s, '-')
  {
  }

  lemma {:induction false} TokensCovered(runs: seq<Range>, tokens: seq<string>, n: nat)
    requires n <= |runs| == |tokens|
    requires forall i :: 0 <= i < n ==> TokenRange(Strip(tokens[i])) == Ok(runs[i])
    ensures TokensTo(tokens, n).Ok?
    ensures forall c: nat :: c in TokensTo(tokens, n).value <==> Covered(runs[..n], c)
  {
    hide TokenRange, Strip, Covered, Cpus;
    if n > 0 {
      TokensCovered(runs, tokens, n - 1);
      assert runs[..n] == runs[..n - 1] + [runs[n - 1]];
      forall c: nat ensures Covered(runs[..n], c) <==> Covered(runs[..n - 1], c) || c in Cpus(runs[n - 1]) {
        CoveredAppend(runs[..n - 1], runs[n - 1], c);
      }
    } else {
      NothingCovered(runs[..0]);
    }
  }

  lemma NothingCovered(runs: seq<Range>)
    requires |runs| == 0
    ensures forall c: nat :: !Covered(runs, c)
  {
  }

  lemma {:induction false} JoinEnds(parts: seq<string>, sep: char)
    requires |parts| >= 1 && forall i :: 0 <= i < |parts| ==> |parts[i]| > 0
    ensures var s := Join(parts, sep);
      |s| > 0 && s[0] == parts[0][0] && s[|s| - 1] == parts[|parts| - 1][|parts[|parts| - 1]| - 1]
  {
    if |parts| > 1 { JoinEnds(parts[1..], sep); }
  }

  lemma StripPlain(s: string)
    requires |s| > 0 && !IsSpace(s[0]) && !IsSpace(s[|s| - 1])
    ensures Strip(s) == s
  {
  }

  lemma ShownToken(r: Range)
    requires r.first <= r.last
    ensures var token := ShowRange(r);
      && |token| > 0 && !IsSpace(token[0]) && !IsSpace(token[|token| - 1]) && !Contains(token, ',')
      && TokenRange(Strip(token)) == Ok(r)
  {
    ShowRangePlain(r);
    StripPlain(ShowRange(r));
  }

  /** The printed text splits back into the tokens it was joined from. */
  lemma ShownTokens(runs: seq<Range>)
    requires |runs| > 0 && forall i :: 0 <= i < |runs| ==> runs[i].first <= runs[i].last
    ensures var text := Join(ShowRanges(runs), ',');
      |text| > 0 && Strip(text) == text && Split(text, ',') == ShowRanges(runs)
    ensures forall i :: 0 <= i < |runs| ==> TokenRange(Strip(ShowRanges(runs)[i])) == Ok(runs[i])
  {
    var tokens := ShowRanges(runs);
    hide ShowRange, TokenRange, Strip, Split, IsSpace, Contains, Join;
    forall i | 0 <= i < |runs|
      ensures |tokens[i]| > 0 && !IsSpace(tokens[i][0]) && !IsSpace(tokens[i][|tokens[i]| - 1])
      ensures !Contains(tokens[i], ',') && TokenRange(Strip(tokens[i])) == Ok(runs[i])
    {
      ShownToken(runs[i]);
    }
    SplitJoin(tokens, ',');
    JoinEnds(tokens, ',');
    StripPlain(Join(tokens, ','));
  }

  /** Printing any non-empty set and parsing the text gives the set back. */
  lemma ParseFormat(cpus: set<nat>)
    requires cpus != {}
    ensures Parsed(Formatted(cpus)) == Ok(cpus)
  {
    hide TokenRange, Strip, Split, Join, TokensTo, ShowRanges, Runs, SortedCpus, Covered, Ascending;
    var ordered := SortedCpus(cpus);
    var runs := Runs(ordered);
    RunsCanonical(ordered);
    ShownTokens(runs);
    TokensCovered(runs, ShowRanges(runs), |runs|);
    assert runs[..|runs|] == runs;
    assert TokensTo(ShowRanges(runs), |runs|).value == cpus;
  }

  /** The printed text has one token for each maximal run: a bare numeral for a single CPU, and otherwise its ends
      around a dash. */
  lemma PrintedTokens(cpus: set<nat>)
    requires cpus != {}
    ensures var tokens, runs := Split(Formatted(cpus), ','), Runs(SortedCpus(cpus));
      |tokens| == |runs| && forall i :: 0 <= i < |runs| ==>
        Denotes(tokens[i], runs[i]) && (Numeral(tokens[i]) <==> runs[i].first == runs[i].last)
  {
    hide TokenRange, Strip, Split, Join, Runs, SortedCpus, Denotes, Numeral;
    var runs := Runs(SortedCpus(cpus));
    RunsCanonical(SortedCpus(cpus));
    ShownTokens(runs);
    forall i | 0 <= i < |runs|
      ensures Denotes(ShowRange(runs[i]), runs[i])
      ensures Numeral(ShowRange(runs[i])) <==> runs[i].first == runs[i].last
    {
      ShowRangePlain(runs[i]);
      TokenExactly(ShowRange(runs[i]), runs[i]);
      ShownNumeral(runs[i]);
    }
  }

  lemma ShownNumeral(r: Range)
    ensures Numeral(ShowRange(r)) <==> r.first == r.last
  {
    if r.first != r.last { assert ShowRange(r)[|ShowNat(r.first)|] == '-'; }
  }

  /** The printed form is compact: no list of ranges for the same CPUs is shorter. */
  lemma FewestRanges(cpus: set<nat>, ranges: seq<Range>)
    requires forall c: nat :: Covered(ranges, c) <==> c in cpus
    ensures |Runs(SortedCpus(cpus))| <= |ranges|
  {
    hide Runs, SortedCpus, Canonical, Covered;
    var runs := Runs(SortedCpus(cpus));
    RunsCanonical(SortedCpus(cpus));
    var at := Covering(runs, ranges, |runs|);
    Pigeonhole(at, |ranges|);
  }

  /** Separate runs need separate ranges. */
  lemma {:induction false} Covering(runs: seq<Range>, ranges: seq<Range>, n: nat) returns (at: seq<nat>)
    requires Canonical(runs) && n <= |runs| && forall c: nat :: Covered(ranges, c) <==> Covered(runs, c)
    ensures |at| == n && Distinct(at)
    ensures forall k :: 0 <= k < n ==> at[k] < |ranges| && ranges[at[k]].first <= runs[k].first <= ranges[at[k]].last
  {
    at := [];
    if n > 0 {
      at := Covering(runs, ranges, n - 1);
      assert Covered(runs, runs[n - 1].first);
      var p :| 0 <= p < |ranges| && ranges[p].first <= runs[n - 1].first <= ranges[p].last;
      forall k | 0 <= k < n - 1 ensures at[k] != p {
        assert runs[k].last + 1 < runs[n - 1].first;
        assert !Covered(runs, runs[k].last + 1);
        assert !Covered(ranges, runs[k].last + 1);
        assert runs[k].last + 1 < ranges[p].first;
      }
      at := at + [p];
    }
  }

  /** Re-printing whatever was accepted is stable: the canonical text parses to the same set and prints
      as itself. */
  lemma ReformatStable(text: string)
    requires Parsed(text).Ok?
    ensures var canonical := Formatted(Parsed(text).value);
      Parsed(canonical) == Parsed(text) && Formatted(Parsed(canonical).value) == canonical
  {
    AcceptedNonEmpty(text);
    ParseFormat(Parsed(text).value);
  }

  /** Different sets print differently, so comparing canonical texts compares sets. */
  lemma FormatInjective(a: set<nat>, b: set<nat>)
    requires a != {} && b != {} && Formatted(a) == Formatted(b)
    ensures a == b
  {
    ParseFormat(a);
    ParseFormat(b);
  }
}
