/** Praise raises a score: what kinder sentiments do to it, in terms of the sentiments themselves. */
module ScoreDirection {
  import opened Reals
  import opened Stats
  import opened Scoring
  import opened ScoreBounds
  import opened ScoreLaws

  /** The same observations, but no sentiment is lower. */
  ghost predicate Kinder(obs: seq<Observation>, kind: seq<Observation>) {
    && |kind| == |obs|
    && forall i | 0 <= i < |obs| :: kind[i].sentiment >= obs[i].sentiment && kind[i] == obs[i].(sentiment := kind[i].sentiment)
  }

  /** `f` does not read sentiments. */
  ghost predicate Blind(f: Observation -> real) { forall o: Observation, x: real :: f(o.(sentiment := x)) == f(o) }

  lemma {:induction false} BlindSum(f: Observation -> real, obs: seq<Observation>, kind: seq<Observation>)
    requires Blind(f) && Kinder(obs, kind)
    ensures Sum(f, kind) == Sum(f, obs)
  {
    if obs != [] {
      BlindSum(f, obs[1..], kind[1..]);
      assert f(obs[0].(sentiment := kind[0].sentiment)) == f(obs[0]);
    }
  }

  lemma {:induction false} BlindLeast(f: Observation -> real, obs: seq<Observation>, kind: seq<Observation>)
    requires Blind(f) && Kinder(obs, kind) && obs != []
    ensures Least(f, kind) == Least(f, obs)
  {
    assert f(obs[0].(sentiment := kind[0].sentiment)) == f(obs[0]);
    if |obs| > 1 { BlindLeast(f, obs[1..], kind[1..]); }
  }

  /** Kinder words are no less positive. */
  lemma KinderWord(c: Setting, o: Observation, x: real)
    requires c.num.Valid() && x >= o.sentiment
    ensures PositivityOf(o.(sentiment := x)) >= PositivityOf(o)
    ensures WeightedPositivityOf(c, o.(sentiment := x)) >= WeightedPositivityOf(c, o)
  {
    WeightRange(c, o);
    MulMonotone(PositivityOf(o), PositivityOf(o.(sentiment := x)), WeightOf(c, o));
  }

  lemma {:induction false} KinderSums(c: Setting, obs: seq<Observation>, kind: seq<Observation>)
    requires c.num.Valid() && Kinder(obs, kind)
    ensures Sum(Positivity(), kind) >= Sum(Positivity(), obs)
    ensures Sum(WeightedPositivity(c), kind) >= Sum(WeightedPositivity(c), obs)
  {
    if obs != [] {
      KinderSums(c, obs[1..], kind[1..]);
      KinderWord(c, obs[0], kind[0].sentiment);
    }
  }

  /** Kinder evidence is observed as no less positive. */
  lemma {:induction false} ObservedGrows(c: Setting, obs: seq<Observation>, kind: seq<Observation>)
    requires c.num.Valid() && obs != [] && Kinder(obs, kind)
    ensures ObservedPositivity(c, kind) >= ObservedPositivity(c, obs)
  {
    BlindSum(EvidenceWeight(c), obs, kind);
    KinderSums(c, obs, kind);
    var total := Sum(EvidenceWeight(c), obs);
    if total > 0.0 {
      DivMonotone(Sum(WeightedPositivity(c), obs), Sum(WeightedPositivity(c), kind), total);
    } else {
      DivMonotone(Sum(Positivity(), obs), Sum(Positivity(), kind), |obs| as real);
    }
  }

  lemma ShrinkGrows(p: real, q: real, weight: real, prior: real, m: real)
    requires p <= q && m >= 0.0
    ensures BayesianShrink(p, weight, prior, m) <= BayesianShrink(q, weight, prior, m)
  {
    if weight > 0.0 {
      MulMonotone(p, q, weight);
      DivMonotone(p * weight + prior * m, q * weight + prior * m, weight + m);
    }
  }

  /** Nothing but sentiment and consistency depends on what is said. */
  lemma {:induction false} OtherComponents(c: Setting, obs: seq<Observation>, kind: seq<Observation>)
    requires Defined(c) && obs != [] && Kinder(obs, kind)
    ensures var x, y := ComponentsOf(c, obs), ComponentsOf(c, kind);
            && y.recency == x.recency && y.volume == x.volume && y.sourceQuality == x.sourceQuality
            && y.engagement == x.engagement && y.confidence == x.confidence
    ensures Sum(EvidenceWeight(c), kind) == Sum(EvidenceWeight(c), obs)
  {
    AllBlind(c);
    BlindSum(EvidenceWeight(c), obs, kind);
    BlindLeast(Age(c), obs, kind);
    BlindSum(Engagement(), obs, kind);
    SameQuality(c, obs, kind);
    SameConfidence(obs, kind);
  }

  lemma AllBlind(c: Setting)
    ensures Blind(EvidenceWeight(c)) && Blind(Age(c)) && Blind(Decay(c)) && Blind(DecayedQuality(c)) && Blind(Engagement())
    ensures Blind(Confidence()) && Blind(GateWeight())
  {
  }

  lemma {:induction false} SameQuality(c: Setting, obs: seq<Observation>, kind: seq<Observation>)
    requires Kinder(obs, kind)
    ensures MeanQuality(c, kind) == MeanQuality(c, obs)
  {
    AllBlind(c);
    BlindSum(Decay(c), obs, kind);
    BlindSum(DecayedQuality(c), obs, kind);
  }

  lemma {:induction false} SameConfidence(obs: seq<Observation>, kind: seq<Observation>)
    requires obs != [] && Kinder(obs, kind)
    ensures MeanConfidence(kind) == MeanConfidence(obs)
  {
    BlindSum(Confidence(), obs, kind);
    if forall o | o in obs :: !o.byModel {
      forall o | o in kind ensures !o.byModel {
        var i :| 0 <= i < |kind| && kind[i] == o;
        assert obs[i] in obs;
      }
    } else {
      var o :| o in obs && o.byModel;
      var i :| 0 <= i < |obs| && obs[i] == o;
      assert kind[i] in kind;
    }
  }

  /** Kinder evidence never lowers the sentiment component. */
  lemma {:induction false} SentimentGrows(c: Setting, obs: seq<Observation>, kind: seq<Observation>)
    requires c.num.Valid() && Defined(c) && obs != [] && Kinder(obs, kind)
    ensures ComponentsOf(c, kind).sentiment >= ComponentsOf(c, obs).sentiment
  {
    OtherComponents(c, obs, kind);
    ObservedGrows(c, obs, kind);
    var weight, p, q := Sum(EvidenceWeight(c), obs), ObservedPositivity(c, obs), ObservedPositivity(c, kind);
    ShrinkGrows(p, q, weight, c.PriorValue(), c.w.bayesM);
    ClampMonotone(BayesianShrink(p, weight, c.PriorValue(), c.w.bayesM), BayesianShrink(q, weight, c.PriorValue(), c.w.bayesM), 0.0, 1.0);
  }

  /**
   * Praise raises a score: of two lists that differ in sentiments only, the one that is nowhere lower is
   * observed as no less positive, and unless its reviewers agree less it scores no less.
   */
  lemma {:induction false} PraiseRaises(c: Setting, obs: seq<Observation>, kind: seq<Observation>)
    requires c.num.Valid() && Defined(c) && c.w.Convex() && obs != []
    requires |kind| == |obs|
    requires forall i | 0 <= i < |obs| :: kind[i].sentiment >= obs[i].sentiment && kind[i] == obs[i].(sentiment := kind[i].sentiment)
    ensures var low, high := ComputeDishScore(c, obs), ComputeDishScore(c, kind);
            && high.observedPositivity >= low.observedPositivity
            && high.components.sentiment >= low.components.sentiment
            && high.status == low.status
            && (high.consistency >= low.consistency ==> high.rawScore.value >= low.rawScore.value)
  {
    ObservedGrows(c, obs, kind);
    SentimentGrows(c, obs, kind);
    OtherComponents(c, obs, kind);
    SameGate(c, obs, kind);
    if ComponentsOf(c, kind).consistency >= ComponentsOf(c, obs).consistency { RawGrows(c, obs, kind); }
  }

  lemma {:induction false} SameGate(c: Setting, obs: seq<Observation>, kind: seq<Observation>)
    requires Defined(c) && obs != [] && Kinder(obs, kind)
    ensures ComputeDishScore(c, kind).status == ComputeDishScore(c, obs).status
  {
    AllBlind(c);
    BlindSum(GateWeight(), obs, kind);
  }

  lemma {:induction false} RawGrows(c: Setting, obs: seq<Observation>, kind: seq<Observation>)
    requires c.num.Valid() && Defined(c) && c.w.Convex() && obs != [] && Kinder(obs, kind)
    requires ComponentsOf(c, kind).consistency >= ComponentsOf(c, obs).consistency
    ensures ComputeDishScore(c, kind).rawScore.value >= ComputeDishScore(c, obs).rawScore.value
  {
    SentimentGrows(c, obs, kind);
    OtherComponents(c, obs, kind);
    RawScoreRange(c, obs);
    RawScoreRange(c, kind);
    TotalMonotone(c.w, ComponentsOf(c, obs), ComponentsOf(c, kind));
  }

  // ---- where positivity is fixed ----

  lemma {:induction false} SumOfEqual(c: Setting, obs: seq<Observation>, p: real)
    requires forall o | o in obs :: PositivityOf(o) == p
    ensures Sum(WeightedPositivity(c), obs) == Times(p, Sum(EvidenceWeight(c), obs))
  {
    if obs == [] {
      assert Times(p, 0.0) == 0.0;
    } else {
      SumOfEqual(c, obs[1..], p);
      Spread(p, WeightOf(c, obs[0]), Sum(EvidenceWeight(c), obs[1..]));
    }
  }

  lemma Spread(p: real, a: real, b: real)
    ensures Times(p, a + b) == Times(p, a) + Times(p, b)
  {
  }

  lemma Quotient(p: real, w: real)
    requires w != 0.0
    ensures Times(p, w) / w == p
  {
  }

  lemma {:induction false} UniformObserved(c: Setting, obs: seq<Observation>, p: real)
    requires obs != [] && forall o | o in obs :: PositivityOf(o) == p
    ensures ObservedPositivity(c, obs) == p
  {
    SumOfEqual(c, obs, p);
    MeanBounds(Positivity(), p, p, obs);
    if Sum(EvidenceWeight(c), obs) > 0.0 { Quotient(p, Sum(EvidenceWeight(c), obs)); }
  }

  /** Nothing but full praise is observed as 1, nothing but full blame as 0, and indifference as one half. */
  lemma {:induction false} ObservedExtremes(c: Setting, obs: seq<Observation>)
    requires Defined(c) && obs != []
    ensures (forall o | o in obs :: o.sentiment >= 1.0) ==> ComputeDishScore(c, obs).observedPositivity == 1.0
    ensures (forall o | o in obs :: o.sentiment <= -1.0) ==> ComputeDishScore(c, obs).observedPositivity == 0.0
    ensures (forall o | o in obs :: o.sentiment == 0.0) ==> ComputeDishScore(c, obs).observedPositivity == 0.5
  {
    if forall o | o in obs :: o.sentiment >= 1.0 { UniformObserved(c, obs, 1.0); }
    if forall o | o in obs :: o.sentiment <= -1.0 { UniformObserved(c, obs, 0.0); }
    if forall o | o in obs :: o.sentiment == 0.0 { UniformObserved(c, obs, 0.5); }
  }

  /** Reviewers of one mind are observed at their place between -1 and 1. */
  lemma {:induction false} OneMind(c: Setting, obs: seq<Observation>, s: real)
    requires Defined(c) && obs != [] && -1.0 <= s <= 1.0 && forall o | o in obs :: o.sentiment == s
    ensures ComputeDishScore(c, obs).observedPositivity == (s + 1.0) / 2.0
  {
    UniformObserved(c, obs, (s + 1.0) / 2.0);
  }
}
