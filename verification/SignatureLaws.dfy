/** What distances, overlaps and signatures count: bits, shared words and votes. */
module SignatureLaws {
  import opened Stats
  import opened Dedup
  import opened Simhash

  // ---- the distance counts bits ----

  function BitAt(v: int, i: nat): int { v / Pow2(i) % 2 }

  /** The places below `n` at which the two differ. */
  function DifferentBits(a: int, b: int, n: nat): set<nat> { set i: nat | i < n && BitAt(a, i) != BitAt(b, i) }

  function CountBits(a: int, b: int, n: nat): nat {
    if n == 0 then 0 else CountBits(a, b, n - 1) + (if BitAt(a, n - 1) != BitAt(b, n - 1) then 1 else 0)
  }

  lemma {:induction false} CountIsSize(a: int, b: int, n: nat)
    ensures CountBits(a, b, n) == |DifferentBits(a, b, n)|
  {
    if n == 0 {
      assert DifferentBits(a, b, 0) == {};
    } else {
      CountIsSize(a, b, n - 1);
      assert DifferentBits(a, b, n) == DifferentBits(a, b, n - 1) + (if BitAt(a, n - 1) != BitAt(b, n - 1) then {n - 1} else {});
    }
  }

  lemma HalvedBit(a: int, i: nat)
    ensures BitAt(a / 2, i) == BitAt(a, i + 1) && BitAt(a, 0) == a % 2
  {
    HalvedQuotient(a, Pow2(i));
  }

  lemma HalvedQuotient(a: int, p: int)
    requires p > 0
    ensures a / 2 / p == a / (2 * p)
  {
    var h := a / 2;
    var q, r := h / p, h % p;
    assert h == q * p + r;
    TwiceAs(q, p);
    QuotientUnique(a, 2 * p, q, 2 * r + a % 2);
  }

  lemma TwiceAs(q: int, p: int)
    ensures 2 * (q * p) == q * (2 * p)
  {
  }

  lemma {:induction false} CountHalved(a: int, b: int, n: nat)
    ensures CountBits(a, b, n + 1) == (if a % 2 != b % 2 then 1 else 0) + CountBits(a / 2, b / 2, n)
  {
    HalvedBit(a, n);
    HalvedBit(b, n);
    if n > 0 {
      CountHalved(a, b, n - 1);
      HalvedBit(a, n - 1);
      HalvedBit(b, n - 1);
    }
  }

  lemma {:induction false} DifferingIsCount(a: int, b: int, n: nat)
    ensures Differing(a, b, n) == CountBits(a, b, n)
    decreases n
  {
    if n > 0 {
      DifferingIsCount(a / 2, b / 2, n - 1);
      CountHalved(a, b, n - 1);
    }
  }

  /** The Hamming distance is the number of the 64 places at which two signatures differ. */
  lemma HammingCountsBits(a: int, b: int)
    ensures Hamming(a, b) == |DifferentBits(a, b, 64)|
  {
    DifferingIsCount(a, b, 64);
    CountIsSize(a, b, 64);
  }

  // ---- the overlap counts words ----

  lemma PartOf<T>(a: set<T>, b: set<T>)
    requires a <= b
    ensures |a| <= |b| && (|a| == |b| <==> a == b)
  {
    SubsetSize(a, b);
    if |b - a| == 0 { assert b - a == {}; }
  }

  lemma RatioOf(x: nat, y: nat)
    requires y > 0 && x <= y
    ensures 0.0 <= x as real / y as real <= 1.0
    ensures (x as real / y as real == 1.0 <==> x == y) && (x as real / y as real == 0.0 <==> x == 0)
    ensures x as real / y as real >= 0.82 <==> 100 * x >= 82 * y
  {
    var q := x as real / y as real;
    assert q * y as real == x as real;
  }

  /** The overlap of two texts is the part of their words that they share: all of them for equal sets, none for disjoint ones. */
  lemma JaccardIs(a: set<string>, b: set<string>)
    ensures 0.0 <= Jaccard(a, b) <= 1.0
    ensures Jaccard(a, b) == 1.0 <==> a == b && a != {}
    ensures Jaccard(a, b) == 0.0 <==> a !! b
    ensures a != {} && b != {} ==> (Jaccard(a, b) >= 0.82 <==> 100 * |a * b| >= 82 * |a + b|)
  {
    if a != {} && b != {} { NonEmptyJaccard(a, b); }
  }

  lemma NonEmptyJaccard(a: set<string>, b: set<string>)
    requires a != {} && b != {}
    ensures 0.0 <= Jaccard(a, b) <= 1.0
    ensures (Jaccard(a, b) == 1.0 <==> a == b) && (Jaccard(a, b) == 0.0 <==> a !! b)
    ensures Jaccard(a, b) >= 0.82 <==> 100 * |a * b| >= 82 * |a + b|
  {
    var x :| x in a;
    assert x in a + b;
    PartOf(a * b, a + b);
    RatioOf(|a * b|, |a + b|);
    if a * b == a + b {
      forall y ensures y in a <==> y in b { assert y in a + b <==> y in a * b; }
    }
    if a == b { assert a * b == a + b; }
    if a !! b { assert a * b == {}; }
    if |a * b| == 0 {
      assert a * b == {};
      forall y | y in a ensures y !in b { assert y in b ==> y in a * b; }
    }
  }

  /** A row passes exactly if at most 12 bits differ and at least 82 of 100 words are shared. */
  lemma PassesIff(t: Text, candidate: string, row: Row)
    ensures var x, y := t.tokens(candidate), t.tokens(row.text);
            Passes(t, candidate, row)
            <==> |DifferentBits(t.signature(candidate), row.simhash, 64)| <= 12 && x != {} && y != {} && 100 * |x * y| >= 82 * |x + y|
  {
    HammingCountsBits(t.signature(candidate), row.simhash);
    var x, y := t.tokens(candidate), t.tokens(row.text);
    if x != {} && y != {} { JaccardIs(x, y); }
  }

  /** A text passes against its own stored row, and never against one with which it shares no word. */
  lemma CopiesPass(t: Text, a: string, b: string, id: string)
    ensures t.tokens(a) != {} ==> Passes(t, a, Stored(t, id, a))
    ensures t.tokens(a) !! t.tokens(b) ==> !Passes(t, a, Stored(t, id, b))
  {
    FoldingKeepsDistance(t.signature(a), t.signature(a));
    SameIsNear(t.signature(a), 64);
    if t.tokens(a) != {} { JaccardIs(t.tokens(a), t.tokens(a)); }
    if t.tokens(a) != {} && t.tokens(b) != {} { JaccardIs(t.tokens(a), t.tokens(b)); }
  }

  lemma {:induction false} SameIsNear(a: int, n: nat)
    ensures Differing(a, a, n) == 0
    decreases n
  {
    if n > 0 { SameIsNear(a / 2, n - 1); }
  }

  /** Rounding goes to the nearest digit, and from the middle to the even one. */
  lemma RoundsToEven(k: int, d: real)
    requires 0.0 <= d <= 1.0
    ensures RoundHalfEven(k as real + d) == if d < 0.5 || (d == 0.5 && k % 2 == 0) then k else k + 1
  {
    var y := k as real + d;
    assert d < 1.0 ==> y.Floor == k;
    assert d == 1.0 ==> y.Floor == k + 1;
  }

  // ---- the signature counts votes ----

  /** How many of the words have bit `i` set in their digest. */
  function Ayes(digest: string -> nat, i: nat, words: seq<string>): nat {
    if words == [] then 0 else Ayes(digest, i, words[..|words| - 1]) + (if BitOf(digest(words[|words| - 1]), i) then 1 else 0)
  }

  /** Neighbouring words, joined by a space. */
  function Neighbours(tokens: seq<string>): seq<string>
    requires tokens != []
  {
    seq(|tokens| - 1, i requires 0 <= i < |tokens| - 1 => tokens[i] + " " + tokens[i + 1])
  }

  lemma {:induction false} TotalConcat(f: Feature -> int, s: seq<Feature>, t: seq<Feature>)
    ensures Total(f, s + t) == Total(f, s) + Total(f, t)
  {
    if t == [] {
      assert s + t == s;
    } else {
      var n := |t| - 1;
      TotalConcat(f, s, t[..n]);
      assert (s + t)[..|s + t| - 1] == s + t[..n];
    }
  }

  lemma {:induction false} VotesOfEqualWeight(digest: string -> nat, i: nat, words: seq<string>, features: seq<Feature>, w: int)
    requires |features| == |words| && forall j | 0 <= j < |words| :: features[j] == (words[j], w)
    ensures Total(VoteOn(digest, i), features) == w * (2 * Ayes(digest, i, words) - |words|)
  {
    if words != [] {
      var n := |words| - 1;
      VotesOfEqualWeight(digest, i, words[..n], features[..n], w);
      OneMoreVote(w, 2 * Ayes(digest, i, words[..n]) - n, BitOf(digest(words[n]), i));
    }
  }

  lemma OneMoreVote(w: int, x: int, aye: bool)
    ensures w * x + (if aye then w else -w) == w * (x + (if aye then 1 else -1))
  {
  }

  lemma VotesAre(digest: string -> nat, tokens: seq<string>, i: nat)
    requires tokens != []
    ensures Votes(digest, Features(tokens), i)
            == 2 * (2 * Ayes(digest, i, tokens) - |tokens|) + (2 * Ayes(digest, i, Neighbours(tokens)) - (|tokens| - 1))
  {
    TotalConcat(VoteOn(digest, i), Unigrams(tokens), Bigrams(tokens));
    VotesOfEqualWeight(digest, i, tokens, Unigrams(tokens), 2);
    VotesOfEqualWeight(digest, i, Neighbours(tokens), Bigrams(tokens), 1);
  }

  /**
   * Each of the 64 bits is set exactly if the words and their neighbouring pairs vote for it: a word
   * counts double, and a bit set in its digest is a vote for.
   */
  lemma BitsByVote(digest: string -> nat, tokens: seq<string>, i: nat)
    requires tokens != [] && i < 64
    ensures var words, pairs := 2 * Ayes(digest, i, tokens) - |tokens|, 2 * Ayes(digest, i, Neighbours(tokens)) - (|tokens| - 1);
            BitOf(Signature(digest, tokens), i) <==> 2 * words + pairs > 0
  {
    SignatureBits(digest, tokens, i);
    VotesAre(digest, tokens, i);
  }

  /** A single word's signature has the bits of its digest, and no word has none. */
  lemma OneWord(digest: string -> nat, w: string, i: nat)
    requires i < 64
    ensures BitOf(Signature(digest, [w]), i) <==> BitOf(digest(w), i)
    ensures Signature(digest, []) == 0
  {
    BitsByVote(digest, [w], i);
    assert [w][..0] == [] && Neighbours([w]) == [];
    assert Ayes(digest, i, [w]) == Ayes(digest, i, []) + (if BitOf(digest(w), i) then 1 else 0);
  }
}
