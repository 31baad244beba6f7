/** Decimal numerals, and splitting and joining text at a separator. */
module Text {
  import opened Common

  predicate IsDigit(c: char) { '0' <= c <= '9' }

  predicate AllDigits(s: string) { forall i :: 0 <= i < |s| ==> IsDigit(s[i]) }

  function DigitValue(c: char): (d: nat)
    requires IsDigit(c)
    ensures d < 10
  {
    c as nat - '0' as nat
  }

  function DigitChar(d: nat): (c: char)
    requires d < 10
    ensures IsDigit(c) && DigitValue(c) == d
  {
    ('0' as nat + d) as char
  }

  /** The value of a digit string; zero for the empty one. */
  function ParseNat(s: string): nat
    requires AllDigits(s)
  {
    if |s| == 0 then 0 else 10 * ParseNat(s[..|s| - 1]) + DigitValue(s[|s| - 1])
  }

  /** Digit values rise with the character, from zero to nine. */
  lemma DigitsRise(c: char, d: char)
    requires IsDigit(c) && IsDigit(d)
    ensures DigitValue(c) < DigitValue(d) <==> c < d
    ensures DigitValue('0') == 0 && DigitValue('9') == 9
  {
  }

  /** Of two equally long digit strings the one with the higher first differing digit is the larger number. */
  lemma {:induction false} NumeralsRise(s: string, t: string, k: nat)
    requires AllDigits(s) && AllDigits(t) && k < |s| == |t|
    requires s[..k] == t[..k] && s[k] < t[k]
    ensures ParseNat(s) < ParseNat(t)
  {
    var n := |s| - 1;
    if k < n {
      assert s[..n][..k] == s[..k] && t[..n][..k] == t[..k];
      NumeralsRise(s[..n], t[..n], k);
    } else {
      DigitsRise(s[n], t[n]);
    }
  }

  /** The decimal numeral of `n`, without leading zeros. */
  function ShowNat(n: nat): (s: string)
    ensures |s| > 0 && AllDigits(s)
  {
    if n < 10 then [DigitChar(n)] else ShowNat(n / 10) + [DigitChar(n % 10)]
  }

  lemma {:induction false} ParseShow(n: nat)
    ensures ParseNat(ShowNat(n)) == n
  {
    var s := ShowNat(n);
    if n < 10 {
      assert s[..|s| - 1] == "";
    } else {
      ParseShow(n / 10);
      assert s[..|s| - 1] == ShowNat(n / 10);
    }
  }

  function Pow10(n: nat): (p: nat)
    ensures p >= 1
  {
    if n == 0 then 1 else 10 * Pow10(n - 1)
  }

  lemma {:induction false} Pow10Monotone(a: nat, b: nat)
    requires a <= b
    ensures Pow10(a) <= Pow10(b)
  {
    if a < b { Pow10Monotone(a, b - 1); }
  }

  lemma {:induction false} ParseBelow(s: string)
    requires AllDigits(s)
    ensures ParseNat(s) < Pow10(|s|)
  {
    if |s| > 0 { ParseBelow(s[..|s| - 1]); }
  }

  lemma TenFold(a: nat, p: nat)
    ensures 10 * (a * p) == a * (10 * p)
  {
  }

  lemma {:induction false} ParseAppend(s: string, t: string)
    requires AllDigits(s) && AllDigits(t)
    ensures AllDigits(s + t) && ParseNat(s + t) == ParseNat(s) * Pow10(|t|) + ParseNat(t)
  {
    var n := |t| - 1;
    if |t| == 0 {
      assert s + t == s;
    } else {
      ParseAppend(s, t[..n]);
      assert (s + t)[..|s + t| - 1] == s + t[..n];
      TenFold(ParseNat(s), Pow10(n));
    }
  }

  function Repeat(c: char, n: nat): (s: string)
    ensures |s| == n && forall i :: 0 <= i < n ==> s[i] == c
  {
    seq(n, _ => c)
  }

  /** A numeral padded with zeros on the left. */
  function Padded(n: nat, width: nat): (s: string)
    ensures AllDigits(s)
  {
    Repeat('0', Max(0, width - |ShowNat(n)|)) + ShowNat(n)
  }

  lemma {:induction false} ShowLength(n: nat, k: nat)
    requires n < Pow10(k) && k > 0
    ensures |ShowNat(n)| <= k
  {
    if n >= 10 {
      ShowLength(n / 10, k - 1);
    }
  }

  lemma {:induction false} ZerosAreNothing(n: nat)
    ensures AllDigits(Repeat('0', n)) && ParseNat(Repeat('0', n)) == 0
  {
    if n > 0 {
      ZerosAreNothing(n - 1);
      assert Repeat('0', n)[..n - 1] == Repeat('0', n - 1);
    }
  }

  lemma PaddedParses(n: nat, width: nat)
    ensures ParseNat(Padded(n, width)) == n
  {
    var zeros := Max(0, width - |ShowNat(n)|);
    ZerosAreNothing(zeros);
    ParseAppend(Repeat('0', zeros), ShowNat(n));
    ParseShow(n);
  }

  predicate Contains(s: string, c: char) { exists i :: 0 <= i < |s| && s[i] == c }

  /** The pieces between separators; one more than there are separators. */
  function Split(s: string, sep: char): (parts: seq<string>)
    ensures |parts| >= 1
  {
    if |s| == 0 then [""]
    else
      var rest := Split(s[1..], sep);
      if s[0] == sep then [""] + rest else [[s[0]] + rest[0]] + rest[1..]
  }

  function Join(parts: seq<string>, sep: char): string
    requires |parts| >= 1
  {
    if |parts| == 1 then parts[0] else parts[0] + [sep] + Join(parts[1..], sep)
  }

  ghost predicate Separable(parts: seq<string>, sep: char) {
    |parts| >= 1 && forall i :: 0 <= i < |parts| ==> !Contains(parts[i], sep)
  }

  lemma {:induction false} SplitPlain(s: string, sep: char)
    requires !Contains(s, sep)
    ensures Split(s, sep) == [s]
  {
    if |s| > 0 {
      assert s[0] != sep;
      SplitPlain(s[1..], sep);
      assert [s[0]] + s[1..] == s;
    }
  }

  lemma {:induction false} SplitAfter(head: string, tail: string, sep: char)
    requires !Contains(head, sep)
    ensures Split(head + [sep] + tail, sep) == [head] + Split(tail, sep)
  {
    var s := head + [sep] + tail;
    if |head| == 0 {
      assert s[1..] == tail;
    } else {
      assert head[0] != sep;
      assert s[1..] == head[1..] + [sep] + tail;
      SplitAfter(head[1..], tail, sep);
      assert [head[0]] + head[1..] == head;
    }
  }

  lemma {:induction false} SplitJoin(parts: seq<string>, sep: char)
    requires Separable(parts, sep)
    ensures Split(Join(parts, sep), sep) == parts
  {
    if |parts| == 1 {
      SplitPlain(parts[0], sep);
    } else {
      SplitJoin(parts[1..], sep);
      SplitAfter(parts[0], Join(parts[1..], sep), sep);
      assert [parts[0]] + parts[1..] == parts;
    }
  }

  lemma {:induction false} JoinSplit(s: string, sep: char)
    ensures Join(Split(s, sep), sep) == s && Separable(Split(s, sep), sep)
  {
    if |s| > 0 {
      var rest := Split(s[1..], sep);
      JoinSplit(s[1..], sep);
      var parts := Split(s, sep);
      assert [s[0]] + s[1..] == s;
      if s[0] == sep {
        assert parts[1..] == rest;
      } else {
        assert parts[1..] == rest[1..];
        forall i | 0 <= i < |parts[0]| ensures parts[0][i] != sep {
          if i > 0 { assert parts[0][i] == rest[0][i - 1]; }
        }
      }
    }
  }
}
