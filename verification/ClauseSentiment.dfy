/** Lexicon sentiment of one clause: negation, intensifiers, and a magnitude-weighted mean. */
module ClauseSentiment {
  import opened Wrappers
  import opened Reals
  import opened Stats

  datatype Lexicon = Lexicon(
    positive: map<string, real>, negative: map<string, real>, negators: set<string>,
    intensifiers: map<string, real>, phrases: seq<(string, real)>)

  const Window: nat := 3
  const Damping: real := 0.65

  function Max(x: real, y: real): real { if x >= y then x else y }

  function Min(x: real, y: real): real { if x <= y then x else y }

  function Abs(x: real): (r: real)
    ensures r >= 0.0
  {
    if x < 0.0 then -x else x
  }

  function Clamp(x: real): real { Max(-1.0, Min(1.0, x)) }

  // ---- one token ----

  /** A positive entry of zero is falsy, and the negative table is asked instead. */
  function Base(lex: Lexicon, token: string): Option<real> {
    if token in lex.positive && lex.positive[token] != 0.0 then Some(lex.positive[token])
    else if token in lex.negative then Some(lex.negative[token])
    else None
  }

  predicate NegatorAt(lex: Lexicon, tokens: seq<string>, i: nat, back: nat)
    requires i < |tokens|
  {
    back <= i && tokens[i - back] in lex.negators
  }

  predicate NegatedWithin(lex: Lexicon, tokens: seq<string>, i: nat, depth: nat)
    requires i < |tokens|
  {
    exists back: nat | 1 <= back <= depth :: NegatorAt(lex, tokens, i, back)
  }

  function Multiplier(lex: Lexicon, tokens: seq<string>, i: nat, depth: nat): real
    requires i < |tokens|
  {
    if depth == 0 then 1.0 else
      Times(Multiplier(lex, tokens, i, depth - 1),
            if depth <= i && tokens[i - depth] in lex.intensifiers then lex.intensifiers[tokens[i - depth]] else 1.0)
  }

  function Adjusted(value: real, negated: bool): real {
    Clamp(if negated then -value * Damping else value)
  }

  function TokenScore(lex: Lexicon, tokens: seq<string>, i: nat): Option<real>
    requires i < |tokens|
  {
    match Base(lex, tokens[i])
    case None => None
    case Some(base) =>
      Some(Adjusted(Times(base, Multiplier(lex, tokens, i, Window)), NegatedWithin(lex, tokens, i, Window)))
  }

  /** The scores of the first `n` tokens, in order. */
  function Scores(lex: Lexicon, tokens: seq<string>, n: nat): seq<real>
    requires n <= |tokens|
  {
    if n == 0 then [] else
      Scores(lex, tokens, n - 1)
      + (match TokenScore(lex, tokens, n - 1) case None => [] case Some(s) => [s])
  }

  // ---- the clause ----

  function Magnitude(): real -> real { (s: real) => Abs(s) }

  function Signed(): real -> real { (s: real) => Times(s, Abs(s)) }

  function Itself(): real -> real { (s: real) => s }

  /** Extremes dominate perception: each score is weighted by its own size. */
  function Weighted(scores: seq<real>): real {
    var total := Sum(Magnitude(), scores);
    Sum(Signed(), scores) / (if total == 0.0 then 1.0 else total)
  }

  function Confidence(n: nat): real { Min(0.9, 0.45 + 0.12 * (n as real)) }

  predicate FoundAt(text: string, phrase: string, i: nat) {
    i + |phrase| <= |text| && text[i..i + |phrase|] == phrase
  }

  predicate Contains(text: string, phrase: string) {
    exists i: nat | i <= |text| :: FoundAt(text, phrase, i)
  }

  function FixedPhrase(phrases: seq<(string, real)>, text: string): Option<real> {
    if phrases == [] then None
    else if Contains(text, phrases[0].0) then Some(phrases[0].1)
    else FixedPhrase(phrases[1..], text)
  }

  function Clause(lex: Lexicon, normalized: string, tokens: seq<string>): (real, real) {
    if normalized == "" then (0.0, 0.0) else
      match FixedPhrase(lex.phrases, normalized)
      case Some(value) => (value, 0.7)
      case None =>
        var scores := Scores(lex, tokens, |tokens|);
        if scores == [] then (0.0, 0.2) else (Clamp(Weighted(scores)), Confidence(|scores|))
  }

  /** `tokens` are the words of the normalised clause. */
  method ScoreClause(lex: Lexicon, normalized: string, tokens: seq<string>) returns (sentiment: real, confidence: real)
    ensures (sentiment, confidence) == Clause(lex, normalized, tokens)
  {
    if normalized == "" {
      return 0.0, 0.0;
    }
    for j := 0 to |lex.phrases|
      invariant FixedPhrase(lex.phrases, normalized) == FixedPhrase(lex.phrases[j..], normalized)
    {
      var (phrase, value) := lex.phrases[j];
      if Contains(normalized, phrase) {
        return value, 0.7;
      }
    }
    var scores: seq<real> := [];
    for i := 0 to |tokens|
      invariant scores == Scores(lex, tokens, i)
    {
      var base := Base(lex, tokens[i]);
      if base.Some? {
        var multiplier, negated := LookBack(lex, tokens, i);
        var value := Times(base.value, multiplier);
        if negated {
          value := -value * Damping;
        }
        scores := scores + [Clamp(value)];
      }
    }
    if scores == [] {
      return 0.0, 0.2;
    }
    var total, weighted := 0.0, 0.0;
    for i := 0 to |scores|
      invariant total == Sum(Magnitude(), scores[..i])
      invariant weighted == Sum(Signed(), scores[..i])
    {
      assert scores[..i + 1] == scores[..i] + [scores[i]];
      SumAppend(Magnitude(), scores[..i], [scores[i]]);
      SumAppend(Signed(), scores[..i], [scores[i]]);
      total, weighted := total + Abs(scores[i]), weighted + Times(scores[i], Abs(scores[i]));
    }
    assert scores[..|scores|] == scores;
    return Clamp(weighted / (if total == 0.0 then 1.0 else total)), Confidence(|scores|);
  }

  /** The window stops at the start of the clause. */
  method LookBack(lex: Lexicon, tokens: seq<string>, i: nat) returns (multiplier: real, negated: bool)
    requires i < |tokens|
    ensures multiplier == Multiplier(lex, tokens, i, Window)
    ensures negated == NegatedWithin(lex, tokens, i, Window)
  {
    multiplier, negated := 1.0, false;
    var back := 1;
    while back <= Window && i - back >= 0
      invariant 1 <= back <= Window + 1
      invariant multiplier == Multiplier(lex, tokens, i, back - 1)
      invariant negated == NegatedWithin(lex, tokens, i, back - 1)
    {
      var prev := tokens[i - back];
      assert prev in lex.negators <==> NegatorAt(lex, tokens, i, back);
      if prev in lex.negators {
        negated := true;
      }
      if prev in lex.intensifiers {
        multiplier := Times(multiplier, lex.intensifiers[prev]);
      }
      back := back + 1;
    }
    PastTheStart(lex, tokens, i, back - 1, Window);
  }

  lemma {:induction false} PastTheStart(lex: Lexicon, tokens: seq<string>, i: nat, near: nat, far: nat)
    requires i < |tokens| && near <= far && (near == far || near >= i)
    ensures Multiplier(lex, tokens, i, near) == Multiplier(lex, tokens, i, far)
    ensures NegatedWithin(lex, tokens, i, near) == NegatedWithin(lex, tokens, i, far)
  {
    if near < far { PastTheStart(lex, tokens, i, near, far - 1); }
  }

  // ---- where the result lies ----

  ghost predicate Within(s: seq<real>, lo: real, hi: real) {
    forall i | 0 <= i < |s| :: lo <= s[i] <= hi
  }

  ghost predicate NonNegative(s: seq<real>) {
    forall i | 0 <= i < |s| :: s[i] >= 0.0
  }

  lemma Distribute(x: real, a: real, b: real)
    ensures Times(x, a + b) == Times(x, a) + Times(x, b)
  {
  }

  lemma {:induction false} WeightedSumBounds(s: seq<real>, lo: real, hi: real)
    requires Within(s, lo, hi)
    ensures Times(lo, Sum(Magnitude(), s)) <= Sum(Signed(), s) <= Times(hi, Sum(Magnitude(), s))
    ensures Sum(Magnitude(), s) >= 0.0
  {
    if s != [] {
      var x, rest := s[0], s[1..];
      WeightedSumBounds(rest, lo, hi);
      MulMonotone(lo, x, Abs(x));
      MulMonotone(x, hi, Abs(x));
      Distribute(lo, Abs(x), Sum(Magnitude(), rest));
      Distribute(hi, Abs(x), Sum(Magnitude(), rest));
    } else {
      assert Times(lo, 0.0) == 0.0 == Times(hi, 0.0);
    }
  }

  lemma {:induction false} NoMagnitude(s: seq<real>)
    ensures Sum(Magnitude(), s) >= 0.0
    ensures Sum(Magnitude(), s) == 0.0 ==> Within(s, 0.0, 0.0)
  {
    if s != [] { NoMagnitude(s[1..]); }
  }

  /** The weighted mean lies between the smallest and the largest score. */
  lemma WeightedBetween(s: seq<real>, lo: real, hi: real)
    requires s != [] && Within(s, lo, hi)
    ensures lo <= Weighted(s) <= hi
  {
    WeightedSumBounds(s, lo, hi);
    NoMagnitude(s);
    RatioBetween(Sum(Signed(), s), Sum(Magnitude(), s), lo, hi, s[0]);
  }

  lemma RatioBetween(q: real, m: real, lo: real, hi: real, x: real)
    requires m >= 0.0 && Times(lo, m) <= q <= Times(hi, m) && lo <= x <= hi && (m == 0.0 ==> x == 0.0)
    ensures lo <= q / (if m == 0.0 then 1.0 else m) <= hi
  {
    if m == 0.0 {
      assert Times(lo, 0.0) == 0.0 && Times(hi, 0.0) == 0.0;
      assert q / 1.0 == q;
    } else {
      DivBounds(q, m, lo, hi);
    }
  }

  /** Every token score is in [-1, 1], so the final clamp of the sentiment never changes it. */
  lemma {:induction false} ScoresInUnit(lex: Lexicon, tokens: seq<string>, n: nat)
    requires n <= |tokens|
    ensures Within(Scores(lex, tokens, n), -1.0, 1.0)
  {
    if n > 0 { ScoresInUnit(lex, tokens, n - 1); }
  }

  lemma FinalClampInactive(lex: Lexicon, tokens: seq<string>)
    ensures var s := Scores(lex, tokens, |tokens|); s != [] ==> Clamp(Weighted(s)) == Weighted(s)
  {
    var s := Scores(lex, tokens, |tokens|);
    ScoresInUnit(lex, tokens, |tokens|);
    if s != [] { WeightedBetween(s, -1.0, 1.0); }
  }

  // ---- at least as extreme as the plain mean ----

  function FromMean(x: real): real -> real { (y: real) => Square(x - y) }

  lemma {:induction false} SpreadAbout(s: seq<real>, x: real)
    requires NonNegative(s)
    ensures 0.0 <= Sum(FromMean(x), s)
    ensures Sum(FromMean(x), s) == Times(Square(x), |s| as real) - 2.0 * Times(x, Sum(Itself(), s)) + Sum(Signed(), s)
  {
    if s != [] {
      var y, rest := s[0], s[1..];
      SpreadAbout(rest, x);
      Distribute(x, y, Sum(Itself(), rest));
      SquareOfDifference(x, y);
      Distribute(Square(x), |rest| as real, 1.0);
    } else {
      assert Times(Square(x), 0.0) == 0.0 && Times(x, 0.0) == 0.0;
    }
  }

  lemma SquareOfDifference(x: real, y: real)
    ensures Square(x - y) == Square(x) - 2.0 * Times(x, y) + Square(y)
    ensures Square(x + y) == Square(x) + 2.0 * Times(x, y) + Square(y)
    ensures y >= 0.0 ==> Times(y, Abs(y)) == Square(y)
  {
    assert (x - y) * (x - y) == x * x - x * y - y * x + y * y;
    assert (x + y) * (x + y) == x * x + x * y + y * x + y * y;
  }

  /** Cauchy-Schwarz against the all-ones vector, over the loop's list of scores. */
  lemma {:induction false} CauchySchwarz(s: seq<real>)
    requires NonNegative(s)
    ensures Square(Sum(Itself(), s)) <= Times(Sum(Signed(), s), |s| as real)
  {
    if s != [] {
      var x, rest := s[0], s[1..];
      CauchySchwarz(rest);
      SpreadAbout(rest, x);
      var t, q, n := Sum(Itself(), rest), Sum(Signed(), rest), |rest| as real;
      SquareOfDifference(t, x);
      Distribute(q + Square(x), n, 1.0);
      Commute(q + Square(x), n);
      Distribute(n, q, Square(x));
      Commute(q, n);
      Commute(Square(x), n);
      Commute(x, t);
    } else {
      assert Square(0.0) == 0.0 && Times(0.0, 0.0) == 0.0;
    }
  }

  lemma Commute(x: real, y: real)
    ensures Times(x, y) == Times(y, x)
    ensures Times(x, 1.0) == x
  {
  }

  lemma {:induction false} MagnitudeOfPositive(s: seq<real>)
    requires NonNegative(s)
    ensures Sum(Magnitude(), s) == Sum(Itself(), s) >= 0.0
  {
    if s != [] { MagnitudeOfPositive(s[1..]); }
  }

  lemma AtLeastMean(s: seq<real>)
    requires s != [] && NonNegative(s)
    ensures Weighted(s) >= Mean(Itself(), s)
  {
    var t, q, n := Sum(Itself(), s), Sum(Signed(), s), |s| as real;
    CauchySchwarz(s);
    MagnitudeOfPositive(s);
    if t == 0.0 {
      assert Sum(Magnitude(), s) == 0.0;
      WeightedSumBounds(s, 0.0, Largest(s));
      assert Weighted(s) == q / 1.0;
    } else {
      assert t * t <= q * n;
      QuotientOrder(t, n, q, t);
    }
  }

  function Largest(s: seq<real>): (r: real)
    ensures forall i | 0 <= i < |s| :: s[i] <= r
  {
    if s == [] then 0.0 else Max(s[0], Largest(s[1..]))
  }

  lemma {:induction false} OppositeSums(s: seq<real>, t: seq<real>)
    requires |s| == |t| && forall i | 0 <= i < |s| :: t[i] == -s[i]
    ensures Sum(Magnitude(), t) == Sum(Magnitude(), s) && Sum(Signed(), t) == -Sum(Signed(), s)
    ensures Sum(Itself(), t) == -Sum(Itself(), s)
  {
    if s != [] {
      OppositeSums(s[1..], t[1..]);
      assert Times(-s[0], Abs(s[0])) == -Times(s[0], Abs(s[0]));
    }
  }

  lemma NegatedQuotient(x: real, d: real)
    requires d != 0.0
    ensures (-x) / d == -(x / d)
  {
  }

  lemma OppositeWeighted(s: seq<real>, t: seq<real>)
    requires |s| == |t| && forall i | 0 <= i < |s| :: t[i] == -s[i]
    ensures Weighted(t) == -Weighted(s)
  {
    OppositeSums(s, t);
    var m := Sum(Magnitude(), s);
    NegatedQuotient(Sum(Signed(), s), if m == 0.0 then 1.0 else m);
  }

  function Opposites(s: seq<real>): (t: seq<real>)
    ensures |t| == |s| && forall i | 0 <= i < |s| :: t[i] == -s[i]
  {
    seq(|s|, i requires 0 <= i < |s| => -s[i])
  }

  lemma AtMostMean(s: seq<real>)
    requires s != [] && forall i | 0 <= i < |s| :: s[i] <= 0.0
    ensures Weighted(s) <= Mean(Itself(), s)
  {
    var t := Opposites(s);
    AtLeastMean(t);
    OppositeWeighted(s, t);
    OppositeSums(s, t);
    NegatedQuotient(Sum(Itself(), s), |s| as real);
  }

  /**
   * What a clause without a fixed phrase scores: nothing when no word is in the lexicon; otherwise
   * a value between the smallest and the largest word score, at least as extreme as their mean
   * when they agree in sign.
   */
  lemma ClauseRange(lex: Lexicon, normalized: string, tokens: seq<string>, lo: real, hi: real)
    requires normalized != "" && FixedPhrase(lex.phrases, normalized).None?
    requires Within(Scores(lex, tokens, |tokens|), lo, hi)
    ensures var s, r := Scores(lex, tokens, |tokens|), Clause(lex, normalized, tokens);
            && (s == [] <==> r.1 == 0.2) && (s == [] ==> r.0 == 0.0)
            && (s != [] ==> 0.57 <= r.1 <= 0.9 && lo <= r.0 <= hi && -1.0 <= r.0 <= 1.0)
            && (s != [] && NonNegative(s) ==> r.0 >= Mean(Itself(), s))
            && (s != [] && (forall i | 0 <= i < |s| :: s[i] <= 0.0) ==> r.0 <= Mean(Itself(), s))
  {
    var s := Scores(lex, tokens, |tokens|);
    FinalClampInactive(lex, tokens);
    ScoresInUnit(lex, tokens, |tokens|);
    if s != [] {
      WeightedBetween(s, lo, hi);
      WeightedBetween(s, -1.0, 1.0);
      if NonNegative(s) { AtLeastMean(s); }
      if forall i | 0 <= i < |s| :: s[i] <= 0.0 { AtMostMean(s); }
    }
  }

  // ---- negation ----

  function Flipped(values: map<string, real>): map<string, real> {
    map w | w in values :: -values[w]
  }

  /** The lexicon in which every word means its opposite. */
  function Opposite(lex: Lexicon): Lexicon {
    lex.(positive := Flipped(lex.positive), negative := Flipped(lex.negative))
  }

  lemma OppositeToken(lex: Lexicon, tokens: seq<string>, i: nat)
    requires i < |tokens|
    ensures TokenScore(Opposite(lex), tokens, i)
            == (match TokenScore(lex, tokens, i) case None => None case Some(s) => Some(-s))
  {
    SameMultiplier(lex, Opposite(lex), tokens, i, Window);
    SameNegation(lex, Opposite(lex), tokens, i, Window);
    OppositeBase(lex, tokens[i]);
    match Base(lex, tokens[i])
    case None =>
    case Some(base) =>
      OppositeProduct(base, Multiplier(lex, tokens, i, Window));
      OppositeAdjusted(Times(base, Multiplier(lex, tokens, i, Window)), NegatedWithin(lex, tokens, i, Window));
  }

  lemma OppositeBase(lex: Lexicon, token: string)
    ensures Base(Opposite(lex), token) == (match Base(lex, token) case None => None case Some(b) => Some(-b))
  {
  }

  lemma OppositeProduct(x: real, m: real)
    ensures Times(-x, m) == -Times(x, m)
  {
  }

  lemma SameNegation(a: Lexicon, b: Lexicon, tokens: seq<string>, i: nat, depth: nat)
    requires i < |tokens| && a.negators == b.negators
    ensures NegatedWithin(a, tokens, i, depth) == NegatedWithin(b, tokens, i, depth)
  {
    forall back: nat ensures NegatorAt(a, tokens, i, back) <==> NegatorAt(b, tokens, i, back) {}
  }

  lemma OppositeAdjusted(value: real, negated: bool)
    ensures Adjusted(-value, negated) == -Adjusted(value, negated)
  {
  }

  lemma {:induction false} SameMultiplier(a: Lexicon, b: Lexicon, tokens: seq<string>, i: nat, depth: nat)
    requires i < |tokens| && a.intensifiers == b.intensifiers
    ensures Multiplier(a, tokens, i, depth) == Multiplier(b, tokens, i, depth)
  {
    if depth > 0 { SameMultiplier(a, b, tokens, i, depth - 1); }
  }

  lemma {:induction false} OppositeScores(lex: Lexicon, tokens: seq<string>, n: nat)
    requires n <= |tokens|
    ensures var s, t := Scores(lex, tokens, n), Scores(Opposite(lex), tokens, n);
            |s| == |t| && forall i | 0 <= i < |s| :: t[i] == -s[i]
  {
    if n > 0 {
      OppositeScores(lex, tokens, n - 1);
      OppositeToken(lex, tokens, n - 1);
    }
  }

  /** Exchanging every word for its opposite negates the sentiment and keeps the confidence. */
  lemma OppositeClause(lex: Lexicon, normalized: string, tokens: seq<string>)
    requires FixedPhrase(lex.phrases, normalized).None?
    ensures Clause(Opposite(lex), normalized, tokens).0 == -Clause(lex, normalized, tokens).0
    ensures Clause(Opposite(lex), normalized, tokens).1 == Clause(lex, normalized, tokens).1
  {
    OppositeScores(lex, tokens, |tokens|);
    OppositeWeighted(Scores(lex, tokens, |tokens|), Scores(Opposite(lex), tokens, |tokens|));
  }

  /** A negator in the window turns a word the other way and never makes it stronger. */
  lemma NegationFlipsAndDamps(lex: Lexicon, tokens: seq<string>, i: nat)
    requires i < |tokens| && TokenScore(lex, tokens, i).Some? && NegatedWithin(lex, tokens, i, Window)
    ensures var plain := lex.(negators := {});
            && TokenScore(plain, tokens, i).Some?
            && var s, p := TokenScore(lex, tokens, i).value, TokenScore(plain, tokens, i).value;
               (p > 0.0 ==> -p <= s < 0.0) && (p < 0.0 ==> 0.0 < s <= -p) && (p == 0.0 ==> s == 0.0)
  {
    var plain := lex.(negators := {});
    SameMultiplier(lex, plain, tokens, i, Window);
    forall back: nat ensures !NegatorAt(plain, tokens, i, back) {}
  }

  // ---- entries that can never match ----

  predicate HasApostrophe(word: string) { '\'' in word }

  /** The negators the normaliser can still produce: it turns an apostrophe into a space. */
  function Reachable(negators: set<string>): set<string> {
    set w | w in negators && !HasApostrophe(w)
  }

  lemma {:induction false} ContractionScores(lex: Lexicon, tokens: seq<string>, n: nat)
    requires n <= |tokens| && forall i | 0 <= i < |tokens| :: !HasApostrophe(tokens[i])
    ensures Scores(lex, tokens, n) == Scores(lex.(negators := Reachable(lex.negators)), tokens, n)
  {
    if n > 0 {
      var live := lex.(negators := Reachable(lex.negators));
      ContractionScores(lex, tokens, n - 1);
      var i: nat := n - 1;
      SameMultiplier(lex, live, tokens, i, Window);
      forall back: nat ensures NegatorAt(lex, tokens, i, back) <==> NegatorAt(live, tokens, i, back) {}
    }
  }

  /** "isn't", "wasn't" and the like negate nothing: no normalised word contains an apostrophe. */
  lemma ContractionsNeverNegate(lex: Lexicon, normalized: string, tokens: seq<string>)
    requires forall i | 0 <= i < |tokens| :: !HasApostrophe(tokens[i])
    ensures Clause(lex, normalized, tokens) == Clause(lex.(negators := Reachable(lex.negators)), normalized, tokens)
  {
    ContractionScores(lex, tokens, |tokens|);
  }
}
