/** What the words of a clause do to its score, said of lexicon entries and of words before a word. */
module ClauseLaws {
  import opened Wrappers
  import opened Reals
  import opened Stats
  import opened ClauseSentiment

  /** Positive entries are positive, negative ones negative, and intensifiers never turn a word around. */
  ghost predicate Proper(lex: Lexicon) {
    && (forall w | w in lex.positive :: lex.positive[w] > 0.0)
    && (forall w | w in lex.negative :: lex.negative[w] < 0.0 && w !in lex.positive)
    && (forall w | w in lex.intensifiers :: lex.intensifiers[w] > 0.0)
  }

  /** None of the three words before this one is in the set. */
  ghost predicate NoneBefore(tokens: seq<string>, i: nat, words: set<string>)
    requires i < |tokens|
  {
    forall j | 0 <= j < i && i - j <= 3 :: tokens[j] !in words
  }

  /** Just this one of the three words before is in the set. */
  ghost predicate OnlyBefore(tokens: seq<string>, i: nat, words: set<string>, j: nat)
    requires i < |tokens|
  {
    j < i && i - j <= 3 && tokens[j] in words && forall l | 0 <= l < i && i - l <= 3 && l != j :: tokens[l] !in words
  }

  lemma {:induction false} NoIntensifier(lex: Lexicon, tokens: seq<string>, i: nat, depth: nat)
    requires i < |tokens| && forall j | 0 <= j < i && i - j <= depth :: tokens[j] !in lex.intensifiers
    ensures Multiplier(lex, tokens, i, depth) == 1.0
  {
    if depth > 0 { NoIntensifier(lex, tokens, i, depth - 1); }
  }

  lemma {:induction false} OneIntensifier(lex: Lexicon, tokens: seq<string>, i: nat, depth: nat, j: nat)
    requires i < |tokens| && j < i && i - j <= depth && tokens[j] in lex.intensifiers
    requires forall l | 0 <= l < i && i - l <= depth && l != j :: tokens[l] !in lex.intensifiers
    ensures Multiplier(lex, tokens, i, depth) == lex.intensifiers[tokens[j]]
  {
    if i - j == depth {
      NoIntensifier(lex, tokens, i, depth - 1);
    } else {
      OneIntensifier(lex, tokens, i, depth - 1, j);
    }
  }

  lemma NegatedIff(lex: Lexicon, tokens: seq<string>, i: nat)
    requires i < |tokens|
    ensures NegatedWithin(lex, tokens, i, Window) <==> !NoneBefore(tokens, i, lex.negators)
  {
    if back: nat :| 1 <= back <= Window && NegatorAt(lex, tokens, i, back) { assert tokens[i - back] in lex.negators; }
    if j :| 0 <= j < i && i - j <= 3 && tokens[j] in lex.negators { assert NegatorAt(lex, tokens, i, i - j); }
  }

  /** The value of a word on its own. */
  function EntryOf(lex: Lexicon, w: string): real
    requires w in lex.positive || w in lex.negative
  {
    if w in lex.positive then lex.positive[w] else lex.negative[w]
  }

  function InUnit(x: real): real { if x > 1.0 then 1.0 else if x < -1.0 then -1.0 else x }

  /** A word counts exactly if the lexicon has it; without negator or intensifier before it, it counts for its entry. */
  lemma PlainWord(lex: Lexicon, tokens: seq<string>, i: nat)
    requires Proper(lex) && i < |tokens|
    ensures TokenScore(lex, tokens, i).Some? <==> tokens[i] in lex.positive || tokens[i] in lex.negative
    ensures TokenScore(lex, tokens, i).Some? && NoneBefore(tokens, i, lex.negators) && NoneBefore(tokens, i, lex.intensifiers.Keys) ==>
              TokenScore(lex, tokens, i).value == InUnit(EntryOf(lex, tokens[i]))
  {
    NegatedIff(lex, tokens, i);
    if NoneBefore(tokens, i, lex.intensifiers.Keys) { NoIntensifier(lex, tokens, i, Window); }
  }

  /** An entry of zero among the positive words is no entry: the negative ones are asked instead. */
  lemma ZeroIsNoEntry(lex: Lexicon, tokens: seq<string>, i: nat)
    requires i < |tokens| && tokens[i] in lex.positive && lex.positive[tokens[i]] == 0.0
    ensures TokenScore(lex, tokens, i) == TokenScore(lex.(positive := lex.positive - {tokens[i]}), tokens, i)
  {
    var without := lex.(positive := lex.positive - {tokens[i]});
    SameMultiplier(lex, without, tokens, i, Window);
    SameNegation(lex, without, tokens, i, Window);
  }

  /** One intensifier among the three words before multiplies the entry by its factor. */
  lemma IntensifiedWord(lex: Lexicon, tokens: seq<string>, i: nat, j: nat)
    requires Proper(lex) && i < |tokens| && (tokens[i] in lex.positive || tokens[i] in lex.negative)
    requires NoneBefore(tokens, i, lex.negators) && OnlyBefore(tokens, i, lex.intensifiers.Keys, j)
    ensures TokenScore(lex, tokens, i) == Some(InUnit(EntryOf(lex, tokens[i]) * lex.intensifiers[tokens[j]]))
  {
    NegatedIff(lex, tokens, i);
    OneIntensifier(lex, tokens, i, Window, j);
    var entry, factor := EntryOf(lex, tokens[i]), lex.intensifiers[tokens[j]];
    assert Base(lex, tokens[i]) == Some(entry);
    assert Times(entry, factor) == entry * factor;
    AdjustedIs(Times(entry, factor), NegatedWithin(lex, tokens, i, Window));
  }

  lemma AdjustedIs(value: real, negated: bool)
    ensures Adjusted(value, negated) == InUnit(if negated then -0.65 * value else value)
  {
  }

  /** A negator among the three words before turns an entry round and damps it to 0.65. */
  lemma NegatedWord(lex: Lexicon, tokens: seq<string>, i: nat)
    requires Proper(lex) && i < |tokens| && (tokens[i] in lex.positive || tokens[i] in lex.negative)
    requires !NoneBefore(tokens, i, lex.negators) && NoneBefore(tokens, i, lex.intensifiers.Keys)
    ensures TokenScore(lex, tokens, i) == Some(InUnit(-0.65 * EntryOf(lex, tokens[i])))
  {
    NegatedIff(lex, tokens, i);
    NoIntensifier(lex, tokens, i, Window);
  }

  lemma {:induction false} MultiplierPositive(lex: Lexicon, tokens: seq<string>, i: nat, depth: nat)
    requires Proper(lex) && i < |tokens|
    ensures Multiplier(lex, tokens, i, depth) > 0.0
  {
    if depth > 0 {
      MultiplierPositive(lex, tokens, i, depth - 1);
      if depth <= i && tokens[i - depth] in lex.intensifiers {
        SignOfTimes(Multiplier(lex, tokens, i, depth - 1), lex.intensifiers[tokens[i - depth]]);
      }
    }
  }

  /** The sign of a word is that of its entry, turned round by a negator; intensifiers never change it. */
  lemma SignOfWord(lex: Lexicon, tokens: seq<string>, i: nat)
    requires Proper(lex) && i < |tokens| && TokenScore(lex, tokens, i).Some?
    ensures var praised, turned, s := tokens[i] in lex.positive, !NoneBefore(tokens, i, lex.negators), TokenScore(lex, tokens, i).value;
            if praised != turned then s > 0.0 else s < 0.0
  {
    NegatedIff(lex, tokens, i);
    MultiplierPositive(lex, tokens, i, Window);
    var m, entry := Multiplier(lex, tokens, i, Window), EntryOf(lex, tokens[i]);
    SignOfTimes(entry, m);
    AdjustedSign(Times(entry, m), NegatedWithin(lex, tokens, i, Window));
  }

  lemma AdjustedSign(value: real, negated: bool)
    requires value != 0.0
    ensures if (value > 0.0) != negated then Adjusted(value, negated) > 0.0 else Adjusted(value, negated) < 0.0
  {
  }

  lemma NegativeFactor(x: real, m: real)
    ensures (-x) * m == -(x * m)
  {
  }

  predicate Opinion(lex: Lexicon, w: string) { w in lex.positive || w in lex.negative }

  /** The word speaks for the dish: praise not negated, or blame negated. */
  ghost predicate Favourable(lex: Lexicon, tokens: seq<string>, i: nat)
    requires i < |tokens|
  {
    (tokens[i] in lex.positive) == NoneBefore(tokens, i, lex.negators)
  }

  ghost predicate AllFavourable(lex: Lexicon, tokens: seq<string>, n: nat)
    requires n <= |tokens|
  {
    forall i | 0 <= i < n && Opinion(lex, tokens[i]) :: Favourable(lex, tokens, i)
  }

  ghost predicate AllUnfavourable(lex: Lexicon, tokens: seq<string>, n: nat)
    requires n <= |tokens|
  {
    forall i | 0 <= i < n && Opinion(lex, tokens[i]) :: !Favourable(lex, tokens, i)
  }

  ghost predicate AllAbove(s: seq<real>) { forall j | 0 <= j < |s| :: s[j] > 0.0 }

  ghost predicate AllBelow(s: seq<real>) { forall j | 0 <= j < |s| :: s[j] < 0.0 }

  lemma {:induction false} FavourableScores(lex: Lexicon, tokens: seq<string>, n: nat)
    requires Proper(lex) && n <= |tokens|
    ensures AllFavourable(lex, tokens, n) ==> AllAbove(Scores(lex, tokens, n))
    ensures AllUnfavourable(lex, tokens, n) ==> AllBelow(Scores(lex, tokens, n))
  {
    if n > 0 {
      FavourableScores(lex, tokens, n - 1);
      PlainWord(lex, tokens, n - 1);
      if TokenScore(lex, tokens, n - 1).Some? { SignOfWord(lex, tokens, n - 1); }
    }
  }

  lemma {:induction false} ScoresOfOpinions(lex: Lexicon, tokens: seq<string>, n: nat)
    requires Proper(lex) && n <= |tokens|
    ensures Scores(lex, tokens, n) != [] <==> exists i :: 0 <= i < n && Opinion(lex, tokens[i])
  {
    if n > 0 {
      ScoresOfOpinions(lex, tokens, n - 1);
      PlainWord(lex, tokens, n - 1);
      if i :| 0 <= i < n - 1 && Opinion(lex, tokens[i]) { assert 0 <= i < n; }
    }
  }

  lemma {:induction false} PositiveSums(s: seq<real>)
    requires s != [] && AllAbove(s)
    ensures Sum(Magnitude(), s) > 0.0 && Sum(Signed(), s) > 0.0
  {
    var x, rest := s[0], s[1..];
    SignOfTimes(x, Abs(x));
    if rest != [] { PositiveSums(rest); }
    assert Sum(Signed(), s) == Times(x, Abs(x)) + Sum(Signed(), rest);
  }

  lemma PositiveWeighted(s: seq<real>)
    requires s != [] && AllAbove(s)
    ensures Weighted(s) > 0.0
  {
    PositiveSums(s);
    PositiveQuotient(Sum(Signed(), s), Sum(Magnitude(), s));
  }

  lemma PositiveQuotient(x: real, y: real)
    requires x > 0.0 && y > 0.0
    ensures x / y > 0.0
  {
    var q := x / y;
    assert q * y == x;
    if q <= 0.0 { MulMonotone(q, 0.0, y); }
  }

  lemma NegativeWeighted(s: seq<real>)
    requires s != [] && AllBelow(s)
    ensures Weighted(s) < 0.0
  {
    OppositeWeighted(s, Opposites(s));
    PositiveWeighted(Opposites(s));
  }

  /**
   * Praise is positive and blame negative: a clause with at least one opinion word, all of them speaking
   * for the dish, has a positive sentiment, and one with all of them against it a negative one.
   */
  lemma PraiseIsPositive(lex: Lexicon, normalized: string, tokens: seq<string>)
    requires Proper(lex) && normalized != "" && FixedPhrase(lex.phrases, normalized).None?
    requires exists i :: 0 <= i < |tokens| && Opinion(lex, tokens[i])
    ensures AllFavourable(lex, tokens, |tokens|) ==> Clause(lex, normalized, tokens).0 > 0.0
    ensures AllUnfavourable(lex, tokens, |tokens|) ==> Clause(lex, normalized, tokens).0 < 0.0
  {
    FavourableScores(lex, tokens, |tokens|);
    ScoresOfOpinions(lex, tokens, |tokens|);
    FinalClampInactive(lex, tokens);
    var s := Scores(lex, tokens, |tokens|);
    if AllFavourable(lex, tokens, |tokens|) { PositiveWeighted(s); }
    if AllUnfavourable(lex, tokens, |tokens|) { NegativeWeighted(s); }
  }

  // ---- weighing words against each other ----

  /** Two words weigh by their own size: of two praises the stronger more, and of praise and blame as well. */
  lemma TwoWords(x: real, y: real)
    requires x > 0.0 && y > 0.0
    ensures Weighted([x, y]) == (x * x + y * y) / (x + y)
    ensures Weighted([x, -y]) == (x * x - y * y) / (x + y)
  {
    TwoPraises(x, y);
    PraiseAndBlame(x, y);
  }

  lemma TwoPraises(x: real, y: real)
    requires x > 0.0 && y > 0.0
    ensures Weighted([x, y]) == (x * x + y * y) / (x + y)
  {
    SumOfTwo(Magnitude(), x, y);
    SumOfTwo(Signed(), x, y);
  }

  lemma PraiseAndBlame(x: real, y: real)
    requires x > 0.0 && y > 0.0
    ensures Weighted([x, -y]) == (x * x - y * y) / (x + y)
  {
    SumOfTwo(Magnitude(), x, -y);
    SumOfTwo(Signed(), x, -y);
    NegativeFactor(y, y);
  }

  lemma SumOfTwo(f: real -> real, x: real, y: real)
    ensures Sum(f, [x, y]) == f(x) + f(y)
  {
    assert [x, y][1..] == [y] && [y][1..] == [];
    assert Sum(f, [y]) == f(y) + Sum(f, []);
  }

  /** How sure a clause is: more opinion words never make it less so, up to 0.9 from four on. */
  lemma MoreWordsMoreSure(n: nat)
    ensures Confidence(n) <= Confidence(n + 1) <= 0.9
    ensures n >= 4 ==> Confidence(n) == 0.9
    ensures n < 4 ==> Confidence(n) == 0.45 + 0.12 * n as real < 0.9
  {
  }

  // ---- fixed phrases ----

  ghost predicate StandsIn(phrase: string, text: string) {
    exists i | 0 <= i <= |text| :: phrase <= text[i..]
  }

  lemma ContainsIff(text: string, phrase: string)
    ensures Contains(text, phrase) <==> StandsIn(phrase, text)
  {
    if i :| 0 <= i <= |text| && phrase <= text[i..] { assert FoundAt(text, phrase, i); }
    if i: nat :| i <= |text| && FoundAt(text, phrase, i) { assert phrase <= text[i..]; }
  }

  /** The first fixed phrase that stands in the text decides, and without one the words do. */
  lemma {:induction false} PhraseDecides(phrases: seq<(string, real)>, text: string)
    ensures FixedPhrase(phrases, text).None? <==> forall j | 0 <= j < |phrases| :: !StandsIn(phrases[j].0, text)
    ensures FixedPhrase(phrases, text).Some? ==>
              exists j :: 0 <= j < |phrases| && StandsIn(phrases[j].0, text) && FixedPhrase(phrases, text) == Some(phrases[j].1)
                          && forall l | 0 <= l < j :: !StandsIn(phrases[l].0, text)
  {
    if phrases != [] {
      ContainsIff(text, phrases[0].0);
      var rest := phrases[1..];
      PhraseDecides(rest, text);
      if !StandsIn(phrases[0].0, text) {
        if FixedPhrase(rest, text).Some? {
          var j :| 0 <= j < |rest| && StandsIn(rest[j].0, text) && FixedPhrase(rest, text) == Some(rest[j].1)
                   && forall l | 0 <= l < j :: !StandsIn(rest[l].0, text);
          assert phrases[j + 1] == rest[j];
          forall l | 0 <= l < j + 1 ensures !StandsIn(phrases[l].0, text) { assert l > 0 ==> phrases[l] == rest[l - 1]; }
        } else {
          forall j | 0 <= j < |phrases| ensures !StandsIn(phrases[j].0, text) { assert j > 0 ==> phrases[j] == rest[j - 1]; }
        }
      }
    }
  }

  /** A clause with a fixed phrase scores that phrase's value, with confidence 0.7. */
  lemma PhraseScores(lex: Lexicon, normalized: string, tokens: seq<string>, j: nat)
    requires normalized != "" && j < |lex.phrases| && StandsIn(lex.phrases[j].0, normalized)
    requires forall l | 0 <= l < j :: !StandsIn(lex.phrases[l].0, normalized)
    ensures Clause(lex, normalized, tokens) == (lex.phrases[j].1, 0.7)
  {
    PhraseDecides(lex.phrases, normalized);
  }
}
