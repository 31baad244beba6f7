/** The exact rational offered rate: its parser, and the open-loop schedule it fixes. */
module OfferedRate {
  import opened Common
  import opened Text

  const NANOS_PER_SECOND: nat := 1_000_000_000
  const DOUBLE_WORD: nat := 0x1_0000_0000_0000_0000_0000_0000_0000_0000

  datatype RateError = NotUnsignedDecimal | TooManyDecimals | TooLarge | NotPositive | AboveCap

  datatype Rate = Rate(source: string, numerator: nat, denominator: nat)

  // ----- greatest common divisor -----

  function Gcd(left: nat, right: nat): nat
    decreases right
  {
    if right == 0 then left else Gcd(right, left % right)
  }

  method GcdLoop(left0: nat, right0: nat) returns (left: nat)
    ensures left == Gcd(left0, right0)
  {
    left := left0;
    var right: nat := right0;
    while right != 0
      invariant Gcd(left, right) == Gcd(left0, right0)
    {
      var remainder := left % right;
      left := right;
      right := remainder;
    }
  }

  ghost predicate Divides(d: nat, n: nat) {
    exists k: nat :: Times(d, k) == n
  }

  function Times(a: nat, b: nat): nat { a * b }

  lemma DividesSum(d: nat, a: nat, b: nat, q: nat)
    requires Divides(d, a) && Divides(d, b)
    ensures Divides(d, a * q + b)
  {
    var k: nat :| Times(d, k) == a;
    var m: nat :| Times(d, m) == b;
    assert d * (k * q + m) == (d * k) * q + d * m;
    assert Times(d, k * q + m) == a * q + b;
  }

  lemma DividesRemainder(d: nat, a: nat, b: nat)
    requires b > 0 && Divides(d, a) && Divides(d, b)
    ensures Divides(d, a % b)
  {
    var k: nat :| Times(d, k) == a;
    var m: nat :| Times(d, m) == b;
    var q := a / b;
    assert a == b * q + a % b;
    assert d * k - (d * m) * q == d * (k - m * q);
    assert a % b == d * (k - m * q);
    if k < m * q { MulLe(k + 1, m * q, d); }
    assert Times(d, k - m * q) == a % b;
  }

  /** `Gcd` is a common divisor that every common divisor divides. */
  lemma {:induction false} GcdIsGreatest(a: nat, b: nat)
    ensures Divides(Gcd(a, b), a) && Divides(Gcd(a, b), b)
    ensures forall d :: Divides(d, a) && Divides(d, b) ==> Divides(d, Gcd(a, b))
    decreases b
  {
    if b == 0 {
      assert Times(a, 1) == a && Times(a, 0) == 0;
    } else {
      GcdIsGreatest(b, a % b);
      var g := Gcd(a, b);
      DividesSum(g, b, a % b, a / b);
      assert a == b * (a / b) + a % b;
      forall d | Divides(d, a) && Divides(d, b) ensures Divides(d, g) {
        DividesRemainder(d, a, b);
      }
    }
  }

  lemma DividesLe(d: nat, n: nat)
    requires Divides(d, n) && n > 0
    ensures 1 <= d <= n
  {
    var k: nat :| Times(d, k) == n;
    if k > 0 { MulLe(1, k, d); }
  }

  lemma SameRatio(a: nat, b: nat, g: nat)
    requires a > 0 && b > 0 && g > 0 && Divides(g, a) && Divides(g, b)
    ensures a / g > 0 && b / g > 0
    ensures (a / g) * g == a && (b / g) * g == b && (a / g) * b == a * (b / g)
  {
    ExactQuotient(g, a);
    ExactQuotient(g, b);
    var x, y := a / g, b / g;
    assert x * (y * g) == (x * g) * y;
  }

  /** Dividing both by their greatest common divisor leaves lowest terms. */
  lemma LowestTerms(a: nat, b: nat)
    requires a > 0 && b > 0
    ensures var g := Gcd(a, b); 0 < g <= a && Divides(g, a) && Divides(g, b) && Gcd(a / g, b / g) == 1
  {
    var g := Gcd(a, b);
    GcdIsGreatest(a, b);
    DividesLe(g, a);
    SameRatio(a, b, g);
    var x, y := a / g, b / g;
    var h := Gcd(x, y);
    GcdIsGreatest(x, y);
    DividesScaled(h, x, g);
    DividesScaled(h, y, g);
    DividesLe(h, x);
    DividesLe(Times(h, g), g);
    if h >= 2 { MulLe(2, h, g); }
  }

  lemma ExactQuotient(d: nat, n: nat)
    requires d > 0 && Divides(d, n)
    ensures (n / d) * d == n
  {
    var k: nat :| Times(d, k) == n;
    QuotientSpan(n, d);
    if n / d < k { MulLe(n / d + 1, k, d); }
    if n / d > k { MulLe(k + 1, n / d, d); }
  }

  lemma DividesScaled(d: nat, n: nat, g: nat)
    requires Divides(d, n)
    ensures Divides(Times(d, g), n * g)
  {
    var k: nat :| Times(d, k) == n;
    assert (d * g) * k == (d * k) * g;
    assert Times(Times(d, g), k) == n * g;
  }

  // ----- the parser -----

  function Reduced(source: string, numerator: nat, denominator: nat): Rate
    requires numerator > 0 && denominator > 0
  {
    LowestTerms(numerator, denominator);
    var divisor := Gcd(numerator, denominator);
    Rate(source, numerator / divisor, denominator / divisor)
  }

  datatype Numeral = Numeral(whole: string, fractional: string)

  /** The textual checks: sign, at most one point, digits only, at most nine decimals. */
  function Cut(source: string): (r: Result<Numeral, RateError>)
    ensures r.Ok? ==> AllDigits(r.value.whole) && AllDigits(r.value.fractional)
  {
    if |source| == 0 || source[0] == '+' || source[0] == '-' then Err(NotUnsignedDecimal) else
    var pieces := Split(source, '.');
    var whole := pieces[0];
    if |pieces| > 2 || |whole| == 0 || !AllDigits(whole) then Err(NotUnsignedDecimal) else
    var fractional := if |pieces| == 2 then pieces[1] else "";
    if |fractional| > 9 || !AllDigits(fractional) then Err(TooManyDecimals) else
    Ok(Numeral(whole, fractional))
  }

  /** The numeric checks, with the 64-bit overflows of `parse`, `checked_mul` and `checked_add`. */
  function Evaluate(whole: nat, fractional: nat, denominator: nat): (r: Result<nat, RateError>)
    ensures r.Ok? ==> 0 < r.value <= NANOS_PER_SECOND * denominator
  {
    if whole >= WORD then Err(TooLarge) else
    if Times(whole, denominator) >= WORD then Err(TooLarge) else
    var numerator := Times(whole, denominator) + fractional;
    if numerator >= WORD then Err(TooLarge) else
    if numerator == 0 then Err(NotPositive) else
    if numerator > NANOS_PER_SECOND * denominator then Err(AboveCap) else
    Ok(numerator)
  }

  function Parse(source: string): Result<Rate, RateError> {
    match Cut(source)
    case Err(e) => Err(e)
    case Ok(n) =>
      var denominator := Pow10(|n.fractional|);
      match Evaluate(ParseNat(n.whole), ParseNat(n.fractional), denominator)
      case Err(e) => Err(e)
      case Ok(numerator) => Ok(Reduced(source, numerator, denominator))
  }

  /** `source` is the unsigned decimal with these digits before and after the point; the point may be
      absent, or present with nothing after it. */
  ghost predicate Writes(source: string, whole: string, fractional: string) {
    && |whole| >= 1 && AllDigits(whole) && AllDigits(fractional) && |fractional| <= 9
    && (source == whole + "." + fractional || (source == whole && fractional == ""))
  }

  /** The written value is `Scaled / 10^|fractional|`. */
  function Scaled(whole: string, fractional: string): nat
    requires AllDigits(whole) && AllDigits(fractional)
  {
    ParseNat(whole + fractional)
  }

  ghost predicate InRange(whole: string, fractional: string)
    requires AllDigits(whole) && AllDigits(fractional)
  {
    0 < Scaled(whole, fractional) <= NANOS_PER_SECOND * Pow10(|fractional|)
  }

  lemma DigitsHoldNoPoint(s: string)
    requires AllDigits(s)
    ensures !Contains(s, '.')
  {
  }

  /** The textual checks accept exactly the unsigned decimals, and cut them at the point. */
  lemma CutExact(source: string, whole: string, fractional: string)
    ensures Cut(source) == Ok(Numeral(whole, fractional)) <==> Writes(source, whole, fractional)
  {
    if Writes(source, whole, fractional) {
      DigitsHoldNoPoint(whole);
      DigitsHoldNoPoint(fractional);
      assert source[0] == whole[0];
      if source == whole {
        SplitPlain(whole, '.');
      } else {
        SplitPlain(fractional, '.');
        SplitAfter(whole, fractional, '.');
        assert source == whole + ['.'] + fractional;
      }
    }
    if Cut(source) == Ok(Numeral(whole, fractional)) {
      var pieces := Split(source, '.');
      JoinSplit(source, '.');
      if |pieces| == 2 {
        assert Join(pieces, '.') == pieces[0] + ['.'] + pieces[1];
      }
    }
  }

  lemma DenominatorCap(decimals: nat)
    requires decimals <= 9
    ensures Pow10(decimals) <= NANOS_PER_SECOND
  {
    Pow10Monotone(decimals, 9);
    assert Pow10(9) == 1_000_000_000;
  }

  /** The overflow checks reject nothing the range check would not. */
  lemma EvaluateExact(whole: nat, fractional: nat, denominator: nat)
    requires 0 < denominator <= NANOS_PER_SECOND
    ensures Evaluate(whole, fractional, denominator).Ok?
       <==> 0 < whole * denominator + fractional <= NANOS_PER_SECOND * denominator
    ensures Evaluate(whole, fractional, denominator).Ok? ==>
            Evaluate(whole, fractional, denominator).value == whole * denominator + fractional
  {
    MulLe(1, denominator, whole);
  }

  lemma WrittenExact(whole: string, fractional: string)
    requires AllDigits(whole) && AllDigits(fractional) && |fractional| <= 9
    ensures var r := Evaluate(ParseNat(whole), ParseNat(fractional), Pow10(|fractional|));
      (r.Ok? <==> InRange(whole, fractional)) && (r.Ok? ==> r.value == Scaled(whole, fractional))
  {
    DenominatorCap(|fractional|);
    ParseAppend(whole, fractional);
    EvaluateExact(ParseNat(whole), ParseNat(fractional), Pow10(|fractional|));
  }

  /** `parse` accepts exactly the unsigned decimals with at most nine decimals in (0, 1e9]... */
  lemma ParseAccepts(source: string)
    ensures Parse(source).Ok? <==>
            exists whole, fractional :: Writes(source, whole, fractional) && InRange(whole, fractional)
  {
    if exists whole, fractional :: Writes(source, whole, fractional) && InRange(whole, fractional) {
      var whole, fractional :| Writes(source, whole, fractional) && InRange(whole, fractional);
      CutExact(source, whole, fractional);
      WrittenExact(whole, fractional);
    }
    if Parse(source).Ok? {
      var n := Cut(source).value;
      CutExact(source, n.whole, n.fractional);
      WrittenExact(n.whole, n.fractional);
    }
  }

  /** ...and returns the written value as a fraction in lowest terms. */
  lemma ParseValue(source: string, whole: string, fractional: string)
    requires Writes(source, whole, fractional) && Parse(source).Ok?
    ensures var r := Parse(source).value;
      && r.source == source && InRange(whole, fractional)
      && r.numerator * Pow10(|fractional|) == Scaled(whole, fractional) * r.denominator
      && Gcd(r.numerator, r.denominator) == 1
      && Schedulable(r)
  {
    CutExact(source, whole, fractional);
    WrittenExact(whole, fractional);
    DenominatorCap(|fractional|);
    ReducedValue(source, Scaled(whole, fractional), Pow10(|fractional|));
  }

  /** A written value is refused as zero, as past 64 bits, or as past the cap. */
  lemma WrittenRefused(source: string, whole: string, fractional: string)
    requires Writes(source, whole, fractional)
    ensures Parse(source) == Err(NotPositive) <==> Scaled(whole, fractional) == 0
    ensures Parse(source) == Err(TooLarge) <==> Scaled(whole, fractional) >= WORD
    ensures Parse(source) == Err(AboveCap) <==>
            NANOS_PER_SECOND * Pow10(|fractional|) < Scaled(whole, fractional) < WORD
    ensures Parse(source) != Err(NotUnsignedDecimal) && Parse(source) != Err(TooManyDecimals)
  {
    CutExact(source, whole, fractional);
    DenominatorCap(|fractional|);
    ParseAppend(whole, fractional);
    EvaluateRefuses(ParseNat(whole), ParseNat(fractional), Pow10(|fractional|));
  }

  lemma EvaluateRefuses(whole: nat, fractional: nat, denominator: nat)
    requires 0 < denominator <= NANOS_PER_SECOND
    ensures var n := whole * denominator + fractional;
      && (Evaluate(whole, fractional, denominator) == Err(NotPositive) <==> n == 0)
      && (Evaluate(whole, fractional, denominator) == Err(TooLarge) <==> n >= WORD)
      && (Evaluate(whole, fractional, denominator) == Err(AboveCap) <==> NANOS_PER_SECOND * denominator < n < WORD)
  {
    MulLe(1, denominator, whole);
  }

  /** Digits, a point, and after it something else than at most nine digits, without another point. */
  ghost predicate BadDecimals(source: string, whole: string, rest: string) {
    && |whole| >= 1 && AllDigits(whole) && source == whole + "." + rest && !Contains(rest, '.')
    && (|rest| > 9 || !AllDigits(rest))
  }

  /** Any other text is refused for its decimals when it starts as a number, and otherwise as no decimal. */
  lemma TextRefused(source: string)
    requires forall whole, fractional :: !Writes(source, whole, fractional)
    ensures Parse(source).Err?
    ensures Parse(source).error == if exists whole, rest :: BadDecimals(source, whole, rest) then TooManyDecimals
                                   else NotUnsignedDecimal
  {
    if Cut(source).Ok? { CutExact(source, Cut(source).value.whole, Cut(source).value.fractional); }
    if whole, rest :| BadDecimals(source, whole, rest) {
      DigitsHoldNoPoint(whole);
      SplitPlain(rest, '.');
      SplitAfter(whole, rest, '.');
      assert source == whole + ['.'] + rest && source[0] == whole[0];
    } else if Cut(source) == Err(TooManyDecimals) {
      var pieces := Split(source, '.');
      JoinSplit(source, '.');
      assert Join(pieces, '.') == pieces[0] + ['.'] + pieces[1];
      assert BadDecimals(source, pieces[0], pieces[1]);
    }
  }

  lemma ReducedValue(source: string, n: nat, d: nat)
    requires 0 < n <= NANOS_PER_SECOND * d && d > 0
    ensures var r := Reduced(source, n, d);
      && r.source == source && r.numerator * d == n * r.denominator && Gcd(r.numerator, r.denominator) == 1
      && 0 < r.numerator <= NANOS_PER_SECOND * r.denominator && 0 < r.denominator <= d
  {
    LowestTerms(n, d);
    SameRatio(n, d, Gcd(n, d));
    CapKept(n, d, Gcd(n, d));
    MulLe(1, Gcd(n, d), d / Gcd(n, d));
  }

  lemma CapKept(n: nat, d: nat, g: nat)
    requires g > 0 && (n / g) * g == n && (d / g) * g == d && n <= NANOS_PER_SECOND * d
    ensures n / g <= NANOS_PER_SECOND * (d / g)
  {
    var y := NANOS_PER_SECOND * (d / g);
    assert y * g == NANOS_PER_SECOND * d;
    MulCancel(n / g, y, g);
  }

  // ----- the schedule -----

  /** What every parsed rate satisfies: positive, at most 1e9 per second, denominator at most 1e9. */
  ghost predicate Schedulable(r: Rate) {
    && r.numerator > 0 && 0 < r.denominator <= NANOS_PER_SECOND
    && r.numerator <= NANOS_PER_SECOND * r.denominator
  }

  function DivCeil(n: nat, d: nat): nat
    requires d > 0
  {
    if n % d > 0 then n / d + 1 else n / d
  }

  function Slots(r: Rate, seconds: nat): nat
    requires r.denominator > 0
  {
    DivCeil(seconds * r.numerator, r.denominator)
  }

  /** `slots_for` panics when the count does not fit the machine word. */
  function SlotsFor(r: Rate, seconds: nat): Option<nat>
    requires r.denominator > 0
  {
    if Slots(r, seconds) < WORD then Some(Slots(r, seconds)) else None
  }

  function Nanos(r: Rate, slot: nat): nat
    requires r.numerator > 0
  {
    slot * NANOS_PER_SECOND * r.denominator / r.numerator
  }

  /** `offset_for` panics when a 128-bit product or the 64-bit result overflows. */
  function OffsetFor(r: Rate, slot: nat): Option<nat>
    requires r.numerator > 0
  {
    if slot * NANOS_PER_SECOND >= DOUBLE_WORD then None
    else if slot * NANOS_PER_SECOND * r.denominator >= DOUBLE_WORD then None
    else if Nanos(r, slot) >= WORD then None
    else Some(Nanos(r, slot))
  }

  lemma DivCeilCounts(n: nat, d: nat, k: nat)
    requires d > 0
    ensures k < DivCeil(n, d) <==> k * d < n
  {
    QuotientSpan(n, d);
    assert n == (n / d) * d + n % d;
    if k < n / d { MulLe(k + 1, n / d, d); assert (k + 1) * d == k * d + d; }
    if k > n / d { MulLe(n / d + 1, k, d); }
  }

  lemma QuotientBelow(n: nat, d: nat, m: nat)
    requires d > 0
    ensures n / d < m <==> n < m * d
  {
    QuotientSpan(n, d);
    if n / d < m { MulLe(n / d + 1, m, d); }
    if n / d >= m { MulLe(m, n / d, d); }
  }

  /** The slot count is exact: slot k is offered exactly when its offset lies in [0, seconds). */
  lemma ScheduleExact(r: Rate, seconds: nat, k: nat)
    requires Schedulable(r)
    ensures k < Slots(r, seconds) <==> Nanos(r, k) < seconds * NANOS_PER_SECOND
  {
    var n, d := r.numerator, r.denominator;
    DivCeilCounts(seconds * n, d, k);
    QuotientBelow(k * NANOS_PER_SECOND * d, n, seconds * NANOS_PER_SECOND);
    Regroup(k, d);
    Regroup(seconds, n);
  }

  lemma Regroup(a: nat, b: nat)
    ensures a * NANOS_PER_SECOND * b == NANOS_PER_SECOND * (a * b)
  {
  }

  /** No two slots share an instant, because no rate exceeds one per nanosecond. */
  lemma OffsetsIncrease(r: Rate, k: nat, l: nat)
    requires Schedulable(r) && k < l
    ensures Nanos(r, k) < Nanos(r, l)
  {
    var n, step := r.numerator, NANOS_PER_SECOND * r.denominator;
    assert k * NANOS_PER_SECOND * r.denominator == k * step;
    assert l * NANOS_PER_SECOND * r.denominator == l * step;
    MulLe(k + 1, l, step);
    assert (k + 1) * step == k * step + step;
    QuotientSpan(k * step, n);
    QuotientSpan(l * step, n);
    var x, y := Nanos(r, k), Nanos(r, l);
    assert (x + 1) * n == x * n + n;
    MulCancelLess(x + 1, y + 1, n);
  }

  /** The cap is what this takes: above it the first two slots already collide. */
  lemma IncreasingNeedsCap(r: Rate)
    requires r.numerator > 0 && 0 < r.denominator <= NANOS_PER_SECOND
    ensures (forall k, l :: 0 <= k < l ==> Nanos(r, k) < Nanos(r, l)) <==>
            r.numerator <= NANOS_PER_SECOND * r.denominator
  {
    if r.numerator <= NANOS_PER_SECOND * r.denominator {
      forall k, l | 0 <= k < l ensures Nanos(r, k) < Nanos(r, l) {
        OffsetsIncrease(r, k, l);
      }
    } else {
      QuotientBelow(NANOS_PER_SECOND * r.denominator, r.numerator, 1);
      assert !(Nanos(r, 0) < Nanos(r, 1));
    }
  }

  /** An offset is the exact rational instant `slot * 1e9 * denominator / numerator` rounded down to
      a whole nanosecond, so it is early by less than one. */
  lemma OffsetWithinANanosecond(r: Rate, slot: nat)
    requires Schedulable(r)
    ensures Nanos(r, slot) * r.numerator <= slot * NANOS_PER_SECOND * r.denominator
    ensures slot * NANOS_PER_SECOND * r.denominator < (Nanos(r, slot) + 1) * r.numerator
  {
    QuotientSpan(slot * NANOS_PER_SECOND * r.denominator, r.numerator);
  }

  lemma SlotsBelow(r: Rate, seconds: nat)
    requires Schedulable(r)
    ensures Slots(r, seconds) <= seconds * NANOS_PER_SECOND
  {
    var n, d, cap := r.numerator, r.denominator, seconds * NANOS_PER_SECOND;
    DivCeilCounts(seconds * n, d, cap);
    MulLe(n, NANOS_PER_SECOND * d, seconds);
    Regroup(seconds, d);
    assert NANOS_PER_SECOND * d * seconds == NANOS_PER_SECOND * (seconds * d);
  }

  /** The 128-bit guards never fail: an offset is defined exactly when it fits 64 bits.  For every duration
      of at most 2^64 nanoseconds the slot count fits a word and every offered slot has its offset. */
  lemma OffsetsDefined(r: Rate, seconds: nat, k: nat)
    requires Schedulable(r)
    ensures OffsetFor(r, k) == if Nanos(r, k) < WORD && k * NANOS_PER_SECOND * r.denominator < DOUBLE_WORD
                               then Some(Nanos(r, k)) else None
    ensures k < WORD ==> k * NANOS_PER_SECOND * r.denominator < DOUBLE_WORD
    ensures SlotsFor(r, seconds) == if Slots(r, seconds) < WORD then Some(Slots(r, seconds)) else None
    ensures seconds * NANOS_PER_SECOND <= WORD ==>
              SlotsFor(r, seconds) == Some(Slots(r, seconds))
              && (k < Slots(r, seconds) ==> OffsetFor(r, k) == Some(Nanos(r, k)))
  {
    MulLe(1, r.denominator, k * NANOS_PER_SECOND);
    if k < WORD { MulLe(r.denominator, NANOS_PER_SECOND, k * NANOS_PER_SECOND); }
    SlotsBelow(r, seconds);
    ScheduleExact(r, seconds, k);
  }
}
