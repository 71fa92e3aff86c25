/** Near-duplicate search: 64-bit signatures folded into a signed column, then exact token overlap. */
module Dedup {
  import opened Wrappers

  // ---- bits ----

  function Pow2(n: nat): (r: nat)
    ensures r > 0
  {
    if n == 0 then 1 else 2 * Pow2(n - 1)
  }

  /** The number of the lowest `n` bits in which two integers differ. */
  function Differing(a: int, b: int, n: nat): nat
    decreases n
  {
    if n == 0 then 0 else (if a % 2 != b % 2 then 1 else 0) + Differing(a / 2, b / 2, n - 1)
  }

  const Bits: nat := 64

  function Hamming(a: int, b: int): nat { Differing(a, b, Bits) }

  /** Fold an unsigned signature into the range of a signed 64-bit column. */
  function ToSigned64(value: int): int {
    var low := value % 0x1_0000_0000_0000_0000;
    if low >= 0x8000_0000_0000_0000 then low - 0x1_0000_0000_0000_0000 else low
  }

  lemma Pow64()
    ensures Pow2(64) == 0x1_0000_0000_0000_0000
  {
    assert Pow2(8) == 0x100;
    Pow2Add(8, 8);
    Pow2Add(16, 16);
    Pow2Add(32, 32);
  }

  lemma {:induction false} Pow2Add(m: nat, n: nat)
    ensures Pow2(m + n) == Pow2(m) * Pow2(n)
  {
    if m > 0 {
      Pow2Add(m - 1, n);
      Doubled(Pow2(m - 1), Pow2(n));
    }
  }

  lemma Doubled(a: int, b: int)
    ensures (2 * a) * b == 2 * (a * b)
  {
  }

  lemma {:induction false} DifferingSymmetric(a: int, b: int, n: nat)
    ensures Differing(a, b, n) == Differing(b, a, n) <= n
    decreases n
  {
    if n > 0 { DifferingSymmetric(a / 2, b / 2, n - 1); }
  }

  lemma {:induction false} DifferingTriangle(a: int, b: int, c: int, n: nat)
    ensures Differing(a, c, n) <= Differing(a, b, n) + Differing(b, c, n)
    decreases n
  {
    if n > 0 { DifferingTriangle(a / 2, b / 2, c / 2, n - 1); }
  }

  /** Only the lowest bits count. */
  lemma {:induction false} DifferingModulo(a: int, a': int, b: int, n: nat, k: int)
    requires a' == a + k * Pow2(n)
    ensures Differing(a, b, n) == Differing(a', b, n)
    decreases n
  {
    if n > 0 {
      var p := Pow2(n - 1);
      assert k * (2 * p) == 2 * (k * p);
      assert a' % 2 == a % 2 && a' / 2 == a / 2 + k * p;
      DifferingModulo(a / 2, a' / 2, b / 2, n - 1, k);
    }
  }

  /** Distance zero means equal in the lowest bits. */
  lemma {:induction false} DifferingZero(a: int, b: int, n: nat) returns (k: int)
    ensures Differing(a, b, n) == 0 ==> a == b + k * Pow2(n)
    ensures a == b ==> Differing(a, b, n) == 0
    decreases n
  {
    if n == 0 {
      k := a - b;
    } else {
      k := DifferingZero(a / 2, b / 2, n - 1);
      var p := Pow2(n - 1);
      assert k * (2 * p) == 2 * (k * p);
    }
  }

  predicate Unsigned(v: int) { 0 <= v < 0x1_0000_0000_0000_0000 }

  predicate Signed(v: int) { -0x8000_0000_0000_0000 <= v < 0x8000_0000_0000_0000 }

  /** Folding is a bijection from unsigned to signed values. */
  lemma FoldingIsBijection(v: int, s: int)
    ensures Signed(ToSigned64(v))
    ensures Unsigned(v) ==> ToSigned64(v) % 0x1_0000_0000_0000_0000 == v
    ensures Signed(s) ==> Unsigned(s % 0x1_0000_0000_0000_0000) && ToSigned64(s % 0x1_0000_0000_0000_0000) == s
  {
  }

  /** Folding either argument leaves the distance alone, so a stored signature compares as a fresh one does. */
  lemma FoldingKeepsDistance(a: int, b: int)
    ensures Hamming(ToSigned64(a), b) == Hamming(a, b) == Hamming(a, ToSigned64(b))
  {
    Pow64();
    var k := Quotient(a);
    var l := Quotient(b);
    DifferingModulo(a, ToSigned64(a), b, Bits, k);
    DifferingModulo(b, ToSigned64(b), a, Bits, l);
    DifferingSymmetric(a, b, Bits);
    DifferingSymmetric(a, ToSigned64(b), Bits);
  }

  lemma Quotient(a: int) returns (k: int)
    ensures ToSigned64(a) == a + k * 0x1_0000_0000_0000_0000
  {
    var q := a / 0x1_0000_0000_0000_0000;
    k := if a % 0x1_0000_0000_0000_0000 >= 0x8000_0000_0000_0000 then -q - 1 else -q;
  }

  /** The distance is a metric on signatures. */
  lemma HammingIsMetric(a: int, b: int, c: int)
    ensures Hamming(a, b) == Hamming(b, a) <= Bits
    ensures Hamming(a, c) <= Hamming(a, b) + Hamming(b, c)
    ensures Unsigned(a) && Unsigned(b) ==> (Hamming(a, b) == 0 <==> a == b)
  {
    DifferingSymmetric(a, b, Bits);
    DifferingTriangle(a, b, c, Bits);
    Pow64();
    if Unsigned(a) && Unsigned(b) { ZeroIsEqual(a, b, Bits); }
  }

  lemma ZeroIsEqual(a: int, b: int, n: nat)
    requires 0 <= a < Pow2(n) && 0 <= b < Pow2(n)
    ensures Differing(a, b, n) == 0 <==> a == b
  {
    var k := DifferingZero(a, b, n);
    if Differing(a, b, n) == 0 { SmallMultiple(a - b, k, Pow2(n)); }
  }

  lemma SmallMultiple(d: int, k: int, m: int)
    requires d == k * m && m > 0 && d < m && d > 0 - m
    ensures d == 0
  {
    Multiples(k, m);
  }

  lemma Multiples(k: int, m: int)
    requires m > 0
    ensures k >= 1 ==> k * m >= m
    ensures k <= -1 ==> k * m <= 0 - m
  {
    if k >= 1 { assert (k - 1) * m >= 0; }
    if k <= -1 { assert (-k - 1) * m >= 0; }
  }

  // ---- token overlap ----

  function Jaccard(a: set<string>, b: set<string>): real {
    if a == {} || b == {} then 0.0 else
      assert a + b != {} by { var x :| x in a; assert x in a + b; }
      (|a * b| as real) / (|a + b| as real)
  }

  lemma JaccardSymmetric(a: set<string>, b: set<string>)
    ensures Jaccard(a, b) == Jaccard(b, a)
  {
    assert a * b == b * a && a + b == b + a;
  }

  // ---- rounding to four digits, halves to even ----

  function RoundHalfEven(y: real): int {
    var f := y.Floor;
    var d := y - f as real;
    if d < 0.5 then f else if d > 0.5 then f + 1 else if f % 2 == 0 then f else f + 1
  }

  function Round4(x: real): real { RoundHalfEven(x * 10000.0) as real / 10000.0 }

  lemma RoundNear(y: real)
    ensures -0.5 <= RoundHalfEven(y) as real - y <= 0.5
  {
  }

  lemma RoundMonotone(x: real, y: real)
    requires x <= y
    ensures RoundHalfEven(x) <= RoundHalfEven(y)
  {
    RoundNear(x);
    RoundNear(y);
  }

  lemma Round4Facts(x: real, y: real)
    ensures -0.00005 <= Round4(x) - x <= 0.00005
    ensures x <= y ==> Round4(x) <= Round4(y)
    ensures Round4(Round4(x)) == Round4(x)
  {
    RoundNear(x * 10000.0);
    if x <= y { RoundMonotone(x * 10000.0, y * 10000.0); }
    assert Round4(x) * 10000.0 == RoundHalfEven(x * 10000.0) as real;
  }

  // ---- the search ----

  datatype Row = Row(id: string, simhash: int, text: string)

  datatype Verdict = Verdict(isDuplicate: bool, similarity: real, matched: Option<string>)

  const HammingThreshold: nat := 12
  const JaccardThreshold: real := 0.82

  /** `signature` and `tokens` are the text functions. */
  datatype Text = Text(signature: string -> nat, tokens: string -> set<string>)

  function Similarity(t: Text, candidate: string, row: Row): real { Jaccard(t.tokens(candidate), t.tokens(row.text)) }

  /** A row passes both thresholds. */
  predicate Passes(t: Text, candidate: string, row: Row) {
    Hamming(t.signature(candidate), row.simhash) <= HammingThreshold && Similarity(t, candidate, row) >= JaccardThreshold
  }

  /** `best` is what is known after the rows of `rows`: the rounded maximum over those that pass. */
  ghost predicate BestOf(t: Text, candidate: string, rows: seq<Row>, best: Verdict) {
    && (best.isDuplicate <==> exists r | r in rows :: Passes(t, candidate, r))
    && (forall r | r in rows && Passes(t, candidate, r) :: Round4(Similarity(t, candidate, r)) <= best.similarity)
    && (best.isDuplicate ==> exists r | r in rows && Passes(t, candidate, r) ::
          best.similarity == Round4(Similarity(t, candidate, r)) && best.matched == Some(r.id))
    && (!best.isDuplicate ==> best.similarity == 0.0 && best.matched.None?)
  }

  lemma BestNext(t: Text, candidate: string, rows: seq<Row>, best: Verdict, row: Row)
    requires BestOf(t, candidate, rows, best)
    ensures var s := Similarity(t, candidate, row);
            BestOf(t, candidate, rows + [row],
                   if Passes(t, candidate, row) && s > best.similarity then Verdict(true, Round4(s), Some(row.id)) else best)
  {
    var s, all := Similarity(t, candidate, row), rows + [row];
    Round4Facts(best.similarity, s);
    Round4Facts(s, best.similarity);
    assert row in all;
    forall r ensures r in all <==> r in rows || r == row {}
    if best.isDuplicate {
      var r :| r in rows && Passes(t, candidate, r) && best.similarity == Round4(Similarity(t, candidate, r)) && best.matched == Some(r.id);
      Round4Facts(Similarity(t, candidate, r), s);
      assert r in all;
    }
  }

  method IsNearDuplicate(t: Text, candidate: string, existing: seq<Row>) returns (best: Verdict)
    ensures BestOf(t, candidate, existing, best)
  {
    var signature := t.signature(candidate);
    best := Verdict(false, 0.0, None);
    for i := 0 to |existing|
      invariant BestOf(t, candidate, existing[..i], best)
    {
      var row := existing[i];
      BestNext(t, candidate, existing[..i], best, row);
      assert existing[..i + 1] == existing[..i] + [row];
      var distance := Hamming(signature, row.simhash);
      if distance > HammingThreshold {
        continue;
      }
      var similarity := Similarity(t, candidate, row);
      if similarity >= JaccardThreshold && similarity > best.similarity {
        best := Verdict(true, Round4(similarity), Some(row.id));
      }
    }
    assert existing[..|existing|] == existing;
  }

  /**
   * Whatever order the rows come in, the verdict and the reported similarity are the same: the
   * similarity is the rounded maximum over the rows that pass, although the running best is rounded.
   */
  lemma OrderIndependent(t: Text, candidate: string, rows: seq<Row>, other: seq<Row>, v: Verdict, w: Verdict)
    requires multiset(rows) == multiset(other)
    requires BestOf(t, candidate, rows, v) && BestOf(t, candidate, other, w)
    ensures v.isDuplicate == w.isDuplicate && v.similarity == w.similarity
  {
    forall r ensures r in rows <==> r in other {
      assert r in rows <==> r in multiset(rows);
      assert r in other <==> r in multiset(other);
    }
  }

  /** The reported similarity is within half of the last digit of the largest among the rows that pass. */
  lemma WithinHalfDigit(t: Text, candidate: string, rows: seq<Row>, v: Verdict, top: Row)
    requires BestOf(t, candidate, rows, v) && top in rows && Passes(t, candidate, top)
    requires forall r | r in rows && Passes(t, candidate, r) :: Similarity(t, candidate, r) <= Similarity(t, candidate, top)
    ensures v.isDuplicate && v.similarity == Round4(Similarity(t, candidate, top))
    ensures -0.00005 <= v.similarity - Similarity(t, candidate, top) <= 0.00005
  {
    var r :| r in rows && Passes(t, candidate, r) && v.similarity == Round4(Similarity(t, candidate, r));
    Round4Facts(Similarity(t, candidate, r), Similarity(t, candidate, top));
    Round4Facts(Similarity(t, candidate, top), Similarity(t, candidate, r));
  }

  // ---- two copies ----

  /** The stored row of a review: its signature folded into the signed column. */
  function Stored(t: Text, id: string, text: string): Row { Row(id, ToSigned64(t.signature(text)), text) }

  /**
   * The relation is symmetric, and a signature is stored when a review is ingested, before any is
   * processed: each of two near-identical reviews is flagged for the other, and neither counts.
   */
  lemma BothCopiesFlagged(t: Text, a: string, b: string, idA: string, idB: string)
    ensures Passes(t, a, Stored(t, idB, b)) <==> Passes(t, b, Stored(t, idA, a))
  {
    FoldingKeepsDistance(t.signature(a), t.signature(b));
    FoldingKeepsDistance(t.signature(b), t.signature(a));
    HammingIsMetric(t.signature(a), t.signature(b), 0);
    JaccardSymmetric(t.tokens(a), t.tokens(b));
  }
}
