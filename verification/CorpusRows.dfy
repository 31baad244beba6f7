/** The generated corpus: each sequence number written as words, least significant bit first, padded to
    an exact token budget. */
module CorpusRows {
  import opened Common
  import opened Text

  const VERIFIED_TOKENIZER_SHA256 := "851ca67100d372ca3ae031a6abd168f53489eebfd7d89523f35c5c9b4d372c3c"

  datatype CorpusRow = CorpusRow(sequence: nat, context: string, tokenCount: nat, tokenizer: string)

  predicate BitSet(sequence: nat, bit: nat) {
    (sequence / Pow2(bit)) % 2 == 1
  }

  /** How many words carry the sequence number. */
  function IdentityBits(tokenCount: nat): nat
    requires tokenCount >= 3
  {
    Min(tokenCount - 2, 63)
  }

  function BitWords(n: nat, sequence: nat): (words: seq<string>)
    ensures |words| == n
  {
    seq(n, bit requires 0 <= bit < n => if BitSet(sequence, bit) then "bravo" else "alpha")
  }

  function Words(tokenCount: nat, sequence: nat): (words: seq<string>)
    requires tokenCount >= 3
  {
    BitWords(IdentityBits(tokenCount), sequence) + seq(tokenCount - 2 - IdentityBits(tokenCount), _ => "service")
  }

  function Context(tokenCount: nat, sequence: nat): string
    requires tokenCount >= 3
  {
    Join(Words(tokenCount, sequence), ' ')
  }

  datatype RowsError = UnverifiedTokenizer | TokenCountTooSmall | CapacityExceeded

  function GeneratedRows(tokenCount: nat, base: nat, count: nat, tokenizer: string): Result<seq<CorpusRow>, RowsError> {
    if tokenizer != VERIFIED_TOKENIZER_SHA256 then Err(UnverifiedTokenizer)
    else if tokenCount < 3 then Err(TokenCountTooSmall)
    else if base + count > Pow2(IdentityBits(tokenCount)) then Err(CapacityExceeded)
    else Ok(seq(count, offset requires 0 <= offset < count =>
                CorpusRow(base + offset, Context(tokenCount, base + offset), tokenCount, tokenizer)))
  }

  // ----- decoding -----

  /** Reads the words back as a number, least significant first. */
  function Decode(words: seq<string>): nat {
    if |words| == 0 then 0 else (if words[0] == "bravo" then 1 else 0) + 2 * Decode(words[1..])
  }

  lemma HalfThenPower(s: nat, p: nat)
    requires p > 0
    ensures s / (2 * p) == (s / 2) / p
  {
    var h, r := s / 2, s % 2;
    var q, t := h / p, h % p;
    assert s == 2 * h + r && h == p * q + t;
    Scale(p, q);
    assert s == (2 * p) * q + (2 * t + r);
    DivModUnique(s, 2 * p, q, 2 * t + r);
  }

  lemma Scale(p: nat, q: nat)
    ensures 2 * (p * q) == (2 * p) * q
  {
  }

  lemma ModDouble(s: nat, p: nat)
    requires p > 0
    ensures s % (2 * p) == s % 2 + 2 * ((s / 2) % p)
  {
    var h, r := s / 2, s % 2;
    var q, t := h / p, h % p;
    assert s == 2 * h + r && h == p * q + t;
    Scale(p, q);
    assert s == (2 * p) * q + (2 * t + r);
    DivModUnique(s, 2 * p, q, 2 * t + r);
  }

  lemma TailWords(n: nat, sequence: nat)
    requires n > 0
    ensures BitWords(n, sequence)[1..] == BitWords(n - 1, sequence / 2)
  {
    forall bit | 0 <= bit < n - 1 ensures BitSet(sequence, bit + 1) == BitSet(sequence / 2, bit) {
      HalfThenPower(sequence, Pow2(bit));
    }
  }

  lemma FirstWord(n: nat, sequence: nat)
    requires n > 0
    ensures BitWords(n, sequence)[0] == if sequence % 2 == 1 then "bravo" else "alpha"
  {
    assert Pow2(0) == 1;
  }

  /** Decoding gives the sequence modulo the capacity of the identity words. */
  lemma {:induction false} DecodeBits(n: nat, sequence: nat)
    ensures Decode(BitWords(n, sequence)) == sequence % Pow2(n)
  {
    if n > 0 {
      TailWords(n, sequence);
      FirstWord(n, sequence);
      hide BitWords;
      DecodeBits(n - 1, sequence / 2);
      ModDouble(sequence, Pow2(n - 1));
    }
  }

  lemma {:induction false} BitsFromRemainder(n: nat, s: nat, t: nat)
    requires s % Pow2(n) == t % Pow2(n)
    ensures BitWords(n, s) == BitWords(n, t)
  {
    if n > 0 {
      ModDouble(s, Pow2(n - 1));
      ModDouble(t, Pow2(n - 1));
      BitsFromRemainder(n - 1, s / 2, t / 2);
      TailWords(n, s);
      TailWords(n, t);
      FirstWord(n, s);
      FirstWord(n, t);
      assert BitWords(n, s) == [BitWords(n, s)[0]] + BitWords(n, s)[1..];
      assert BitWords(n, t) == [BitWords(n, t)[0]] + BitWords(n, t)[1..];
    }
  }

  lemma PlainWords(tokenCount: nat, sequence: nat)
    requires tokenCount >= 3
    ensures Separable(Words(tokenCount, sequence), ' ')
  {
    var words := Words(tokenCount, sequence);
    forall i | 0 <= i < |words| ensures !Contains(words[i], ' ') {
      assert words[i] == "alpha" || words[i] == "bravo" || words[i] == "service";
    }
  }

  /** Word by word: one for each bit of the sequence number, least significant first, then padding. */
  lemma ContextSpells(tokenCount: nat, sequence: nat, k: nat)
    requires tokenCount >= 3 && k < tokenCount - 2
    ensures var words := Split(Context(tokenCount, sequence), ' ');
      && |words| == tokenCount - 2
      && words[k] == if k >= 63 then "service" else if (sequence / Pow2(k)) % 2 == 1 then "bravo" else "alpha"
  {
    PlainWords(tokenCount, sequence);
    SplitJoin(Words(tokenCount, sequence), ' ');
  }

  /** A context is exactly `token_count - 2` words, and they spell the sequence number. */
  lemma ContextDecodes(tokenCount: nat, sequence: nat)
    requires tokenCount >= 3
    ensures var words := Split(Context(tokenCount, sequence), ' ');
      && |words| == tokenCount - 2
      && Decode(words[..IdentityBits(tokenCount)]) == sequence % Pow2(IdentityBits(tokenCount))
  {
    hide BitWords, Decode;
    PlainWords(tokenCount, sequence);
    SplitJoin(Words(tokenCount, sequence), ' ');
    DecodeBits(IdentityBits(tokenCount), sequence);
  }

  /** Two contexts of one budget coincide exactly when the sequences agree modulo the capacity, so the
      capacity check is as permissive as it can be. */
  lemma ContextsCollideExactly(tokenCount: nat, s: nat, t: nat)
    requires tokenCount >= 3
    ensures Context(tokenCount, s) == Context(tokenCount, t) <==>
            s % Pow2(IdentityBits(tokenCount)) == t % Pow2(IdentityBits(tokenCount))
  {
    hide BitWords, Decode, Join;
    ContextDecodes(tokenCount, s);
    ContextDecodes(tokenCount, t);
    if s % Pow2(IdentityBits(tokenCount)) == t % Pow2(IdentityBits(tokenCount)) {
      BitsFromRemainder(IdentityBits(tokenCount), s, t);
    }
  }

  lemma SmallRemainder(s: nat, p: nat)
    requires s < p
    ensures s % p == s
  {
  }

  /** Within the capacity, different sequences have different contexts, even across token budgets. */
  lemma ContextsDiffer(m: nat, n: nat, s: nat, t: nat)
    requires m >= 3 && n >= 3 && s < Pow2(IdentityBits(m)) && t < Pow2(IdentityBits(n))
    requires s != t || m != n
    ensures Context(m, s) != Context(n, t)
  {
    hide Context, Pow2, IdentityBits;
    ContextDecodes(m, s);
    ContextDecodes(n, t);
    if m == n {
      ContextsCollideExactly(m, s, t);
      SmallRemainder(s, Pow2(IdentityBits(m)));
      SmallRemainder(t, Pow2(IdentityBits(m)));
    }
  }

  // ----- validation of the selected rows -----

  function Collected<T(==)>(s: seq<T>): set<T> {
    set x | x in s
  }

  lemma CollectOne<T>(s: seq<T>, x: T)
    ensures Collected(s + [x]) == Collected(s) + {x}
  {
  }

  /** A set collected from a sequence is as large as the sequence exactly when nothing repeats. */
  lemma {:induction false} DistinctCardinality<T(!new)>(s: seq<T>)
    ensures |Collected(s)| <= |s|
    ensures |Collected(s)| == |s| <==> Distinct(s)
  {
    if |s| > 0 {
      var n := |s| - 1;
      DistinctCardinality(s[..n]);
      assert s == s[..n] + [s[n]];
      CollectOne(s[..n], s[n]);
      DistinctExtends(s[..n], s[n]);
      if s[n] in s[..n] { assert Collected(s) == Collected(s[..n]); }
    }
  }

  lemma DistinctExtends<T(!new)>(s: seq<T>, x: T)
    ensures Distinct(s + [x]) <==> Distinct(s) && x !in s
  {
    var t := s + [x];
    if x in s {
      var i :| 0 <= i < |s| && s[i] == x;
      assert t[i] == t[|s|];
    } else if Distinct(t) {
      forall i, j | 0 <= i < j < |s| ensures s[i] != s[j] { assert t[i] != t[j]; }
    }
  }

  function Column<T>(rows: seq<CorpusRow>, column: CorpusRow -> T): (values: seq<T>)
    ensures |values| == |rows| && forall i :: 0 <= i < |rows| ==> values[i] == column(rows[i])
  {
    seq(|rows|, i requires 0 <= i < |rows| => column(rows[i]))
  }

  /** Exactly the row sets the probe accepts. */
  ghost predicate ValidRows(rows: seq<CorpusRow>) {
    && |rows| > 0
    && (forall i :: 0 <= i < |rows| ==>
          rows[i].tokenCount == rows[0].tokenCount && rows[i].tokenizer == rows[0].tokenizer)
    && Distinct(Column(rows, (r: CorpusRow) => r.context)) && Distinct(Column(rows, (r: CorpusRow) => r.sequence))
  }

  /** The probe's checks, by the sizes of the four collected sets. */
  method ValidateRows(rows: seq<CorpusRow>) returns (ok: bool)
    ensures ok <==> ValidRows(rows)
  {
    if |rows| == 0 { return false; }
    var contexts := Column(rows, (r: CorpusRow) => r.context);
    var sequences := Column(rows, (r: CorpusRow) => r.sequence);
    var counts := Column(rows, (r: CorpusRow) => r.tokenCount);
    var hashes := Column(rows, (r: CorpusRow) => r.tokenizer);
    var countSet: set<nat>, hashSet: set<string>, contextSet: set<string>, sequenceSet: set<nat> := {}, {}, {}, {};
    for i := 0 to |rows|
      invariant countSet == Collected(counts[..i]) && hashSet == Collected(hashes[..i])
      invariant contextSet == Collected(contexts[..i]) && sequenceSet == Collected(sequences[..i])
    {
      countSet, hashSet := countSet + {rows[i].tokenCount}, hashSet + {rows[i].tokenizer};
      contextSet, sequenceSet := contextSet + {rows[i].context}, sequenceSet + {rows[i].sequence};
      Grow(counts, i);
      Grow(hashes, i);
      Grow(contexts, i);
      Grow(sequences, i);
    }
    assert counts[..|rows|] == counts && hashes[..|rows|] == hashes;
    assert contexts[..|rows|] == contexts && sequences[..|rows|] == sequences;
    OneValue(counts);
    OneValue(hashes);
    DistinctCardinality(contexts);
    DistinctCardinality(sequences);
    assert (forall i :: 0 <= i < |rows| ==> counts[i] == counts[0]) <==>
           forall i :: 0 <= i < |rows| ==> rows[i].tokenCount == rows[0].tokenCount;
    assert (forall i :: 0 <= i < |rows| ==> hashes[i] == hashes[0]) <==>
           forall i :: 0 <= i < |rows| ==> rows[i].tokenizer == rows[0].tokenizer;
    return |countSet| == 1 && |hashSet| == 1 && |contextSet| == |rows| && |sequenceSet| == |rows|;
  }

  lemma Grow<T>(s: seq<T>, i: nat)
    requires i < |s|
    ensures Collected(s[..i + 1]) == Collected(s[..i]) + {s[i]}
  {
    assert s[..i + 1] == s[..i] + [s[i]];
  }

  lemma OneValue<T>(s: seq<T>)
    requires |s| > 0
    ensures |Collected(s)| == 1 <==> forall i :: 0 <= i < |s| ==> s[i] == s[0]
  {
    assert s[0] in Collected(s);
    SingletonExactly(Collected(s), s[0]);
    if Collected(s) == {s[0]} {
      forall i | 0 <= i < |s| ensures s[i] == s[0] { assert s[i] in Collected(s); }
    }
  }

  lemma SingletonExactly<T>(s: set<T>, x: T)
    requires x in s
    ensures |s| == 1 <==> s == {x}
  {
    assert s == (s - {x}) + {x};
  }

  /** What generation returns: its first failed requirement, or one row for each sequence of the range. */
  lemma GeneratedExactly(tokenCount: nat, base: nat, count: nat, tokenizer: string)
    ensures var r := GeneratedRows(tokenCount, base, count, tokenizer);
      && (r == Err(UnverifiedTokenizer) <==> tokenizer != VERIFIED_TOKENIZER_SHA256)
      && (r == Err(TokenCountTooSmall) <==> tokenizer == VERIFIED_TOKENIZER_SHA256 && tokenCount <= 2)
      && (r == Err(CapacityExceeded) <==>
            tokenizer == VERIFIED_TOKENIZER_SHA256 && tokenCount > 2 && base + count > Pow2(Min(tokenCount - 2, 63)))
      && (r.Ok? ==> |r.value| == count && forall k :: 0 <= k < count ==>
            && r.value[k].sequence == base + k && r.value[k].tokenCount == tokenCount > 2
            && r.value[k].context == Context(tokenCount, base + k) && r.value[k].tokenizer == VERIFIED_TOKENIZER_SHA256)
  {
    hide Pow2, Context;
  }

  /** Whatever is generated passes validation. */
  lemma GeneratedValid(tokenCount: nat, base: nat, count: nat, tokenizer: string)
    requires count > 0 && GeneratedRows(tokenCount, base, count, tokenizer).Ok?
    ensures ValidRows(GeneratedRows(tokenCount, base, count, tokenizer).value)
  {
    hide Context, Pow2;
    var rows := GeneratedRows(tokenCount, base, count, tokenizer).value;
    forall i, j | 0 <= i < j < count ensures rows[i].context != rows[j].context {
      ContextsDiffer(tokenCount, tokenCount, base + i, base + j);
    }
  }

  /** Generation refuses exactly the ranges that hold a sequence whose context repeats one already below the
      capacity. */
  lemma CapacityExact(tokenCount: nat, base: nat, count: nat)
    requires tokenCount >= 3 && count > 0
    ensures GeneratedRows(tokenCount, base, count, VERIFIED_TOKENIZER_SHA256).Err? <==>
      exists s: nat, t: nat :: s < Pow2(IdentityBits(tokenCount)) <= t && base <= t < base + count
                               && Context(tokenCount, s) == Context(tokenCount, t)
  {
    hide Context;
    var p := Pow2(IdentityBits(tokenCount));
    if base + count > p {
      var t := base + count - 1;
      ContextsCollideExactly(tokenCount, t % p, t);
      SmallRemainder(t % p, p);
    }
  }
}
