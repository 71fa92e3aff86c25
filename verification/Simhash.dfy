/** Signatures: every feature of a text votes on every bit, and the majority sets it. */
module Simhash {
  import opened Stats
  import opened Dedup

  /** A word or a pair of neighbouring words, with its weight. */
  type Feature = (string, int)

  const UnigramWeight: int := 2
  const BigramWeight: int := 1

  function Unigrams(tokens: seq<string>): (r: seq<Feature>)
    ensures |r| == |tokens|
  {
    seq(|tokens|, i requires 0 <= i < |tokens| => (tokens[i], UnigramWeight))
  }

  function Bigrams(tokens: seq<string>): seq<Feature>
    requires tokens != []
  {
    seq(|tokens| - 1, i requires 0 <= i < |tokens| - 1 => (tokens[i] + " " + tokens[i + 1], BigramWeight))
  }

  function Features(tokens: seq<string>): seq<Feature>
    requires tokens != []
  {
    Unigrams(tokens) + Bigrams(tokens)
  }

  /** Bit `i` of a non-negative integer. */
  predicate BitOf(v: nat, i: nat) { v / Pow2(i) % 2 == 1 }

  function VoteOn(digest: string -> nat, i: nat): Feature -> int {
    (f: Feature) => if BitOf(digest(f.0), i) then f.1 else -f.1
  }

  /** The balance of the votes on bit `i`. */
  function Votes(digest: string -> nat, features: seq<Feature>, i: nat): int { Total(VoteOn(digest, i), features) }

  function AllVotes(digest: string -> nat, features: seq<Feature>): nat -> int {
    (i: nat) => Votes(digest, features, i)
  }

  /** The number whose lowest bits are set where the votes are positive. */
  function Fold(votes: nat -> int, n: nat): nat {
    if n == 0 then 0 else Fold(votes, n - 1) + (if votes(n - 1) > 0 then Pow2(n - 1) else 0)
  }

  function Signature(digest: string -> nat, tokens: seq<string>): nat {
    if tokens == [] then 0 else Fold(AllVotes(digest, Features(tokens)), Bits)
  }

  // ---- the fold sets each bit by its votes ----

  lemma {:induction false} FoldBound(votes: nat -> int, n: nat)
    ensures Fold(votes, n) < Pow2(n)
  {
    if n > 0 { FoldBound(votes, n - 1); }
  }

  lemma LowBit(v: nat, n: nat, i: nat)
    requires i < n
    ensures BitOf(v + Pow2(n), i) <==> BitOf(v, i)
  {
    Pow2Add(n - i, i);
    EvenMultiple(v, Pow2(n - i - 1), Pow2(i));
  }

  /** Adding an even multiple of `p` leaves the parity of the quotient alone. */
  lemma EvenMultiple(v: nat, h: nat, p: nat)
    requires p > 0
    ensures (v + (2 * h) * p) / p % 2 == v / p % 2
  {
    DivideShift(v, 2 * h, p);
    EvenShift(v / p, h);
  }

  lemma EvenShift(x: nat, h: nat)
    ensures (x + 2 * h) % 2 == x % 2
  {
  }

  lemma DivideShift(v: nat, q: nat, p: nat)
    requires p > 0
    ensures (v + q * p) / p == v / p + q
  {
    var d, r := v / p, v % p;
    Distribute(d, q, p);
    QuotientUnique(v + q * p, p, d + q, r);
  }

  lemma Distribute(d: int, q: int, p: int)
    ensures (d + q) * p == d * p + q * p
    ensures (d - q) * p == d * p - q * p
  {
  }

  lemma QuotientUnique(x: int, p: int, d: int, r: int)
    requires p > 0 && 0 <= r < p && x == d * p + r
    ensures x / p == d
  {
    var e := x / p;
    assert x == e * p + x % p;
    Distribute(e, d, p);
    Multiples(e - d, p);
  }

  lemma HighBit(v: nat, n: nat)
    requires v < Pow2(n)
    ensures !BitOf(v, n) && BitOf(v + Pow2(n), n)
  {
    QuotientUnique(v, Pow2(n), 0, v);
    QuotientUnique(v + Pow2(n), Pow2(n), 1, v);
  }

  lemma BitNext(v: nat, n: nat, i: nat, on: bool)
    requires v < Pow2(n) && i <= n
    ensures BitOf(v + (if on then Pow2(n) else 0), i) <==> if i < n then BitOf(v, i) else on
  {
    if i < n { LowBit(v, n, i); } else { HighBit(v, n); }
  }

  /** Each bit of the signature is the sign of its votes. */
  lemma {:induction false} FoldBits(votes: nat -> int, n: nat, i: nat)
    requires i < n
    ensures BitOf(Fold(votes, n), i) <==> votes(i) > 0
  {
    FoldBound(votes, n - 1);
    BitNext(Fold(votes, n - 1), n - 1, i, votes(n - 1) > 0);
    if i < n - 1 { FoldBits(votes, n - 1, i); }
  }

  lemma {:induction false} FoldSame(f: nat -> int, g: nat -> int, n: nat)
    requires forall i: nat | i < n :: f(i) == g(i)
    ensures Fold(f, n) == Fold(g, n)
  {
    if n > 0 { FoldSame(f, g, n - 1); }
  }

  /** A signature fits 64 bits, and its bit `i` tells which way the features voted on `i`. */
  lemma SignatureBits(digest: string -> nat, tokens: seq<string>, i: nat)
    requires tokens != [] && i < Bits
    ensures Signature(digest, tokens) < Pow2(Bits)
    ensures BitOf(Signature(digest, tokens), i) <==> Votes(digest, Features(tokens), i) > 0
  {
    FoldBound(AllVotes(digest, Features(tokens)), Bits);
    FoldBits(AllVotes(digest, Features(tokens)), Bits, i);
  }

  /** Texts with the same words and the same neighbouring pairs, in any order, have the same signature. */
  lemma SignatureOfFeatures(digest: string -> nat, s: seq<string>, t: seq<string>)
    requires s != [] && t != [] && multiset(Features(s)) == multiset(Features(t))
    ensures Signature(digest, s) == Signature(digest, t)
  {
    forall i: nat ensures Votes(digest, Features(s), i) == Votes(digest, Features(t), i) {
      TotalPermutation(VoteOn(digest, i), Features(s), Features(t));
    }
    FoldSame(AllVotes(digest, Features(s)), AllVotes(digest, Features(t)), Bits);
  }

  // ---- the loops ----

  method CastVotes(vector: array<int>, digest: string -> nat, feature: Feature)
    requires vector.Length == Bits
    modifies vector
    ensures forall i: nat | i < Bits :: vector[i] == old(vector[i]) + VoteOn(digest, i)(feature)
  {
    var d := digest(feature.0);
    for i := 0 to Bits
      invariant forall j: nat | j < i :: vector[j] == old(vector[j]) + VoteOn(digest, j)(feature)
      invariant forall j: nat | i <= j < Bits :: vector[j] == old(vector[j])
    {
      vector[i] := vector[i] + (if BitOf(d, i) then feature.1 else -feature.1);
    }
  }

  method ComputeSignature(digest: string -> nat, tokens: seq<string>) returns (value: nat)
    ensures value == Signature(digest, tokens)
  {
    if tokens == [] {
      return 0;
    }
    var features := Features(tokens);
    var vector := new int[Bits](i => 0);
    for k := 0 to |features|
      invariant forall i: nat | i < Bits :: vector[i] == Votes(digest, features[..k], i)
    {
      ghost var before := vector[..];
      CastVotes(vector, digest, features[k]);
      assert features[..k + 1] == features[..k] + [features[k]];
      forall i: nat | i < Bits ensures vector[i] == Votes(digest, features[..k + 1], i) {
        TotalAppend(VoteOn(digest, i), features[..k], features[k]);
        assert before[i] == Votes(digest, features[..k], i);
      }
    }
    assert features[..|features|] == features;
    value := 0;
    for i := 0 to Bits
      invariant value == Fold(AllVotes(digest, features), i)
    {
      assert vector[i] == AllVotes(digest, features)(i);
      if vector[i] > 0 {
        value := value + Pow2(i);
      }
    }
  }
}
