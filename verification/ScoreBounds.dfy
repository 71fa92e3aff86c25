/** What the scorer guarantees for all evidence: ranges, gates, and thin against thick evidence. */
module ScoreBounds {
  import opened Wrappers
  import opened Reals
  import opened Stats
  import opened Scoring

  // ---- time and status ----

  function Shifted(o: Observation, d: real): Observation {
    match o.observedAt
    case None => o
    case Some(t) => o.(observedAt := Some(t + d))
  }

  function ShiftAll(obs: seq<Observation>, d: real): (r: seq<Observation>)
    ensures |r| == |obs|
    ensures forall i | 0 <= i < |obs| :: r[i] == Shifted(obs[i], d)
  {
    if obs == [] then [] else [Shifted(obs[0], d)] + ShiftAll(obs[1..], d)
  }

  ghost predicate Follows(f: Observation -> real, g: Observation -> real, d: real) {
    forall o {:trigger Shifted(o, d)} :: g(Shifted(o, d)) == f(o)
  }

  lemma {:induction false} SumShift(f: Observation -> real, g: Observation -> real, obs: seq<Observation>, d: real)
    requires Follows(f, g, d)
    ensures Sum(g, ShiftAll(obs, d)) == Sum(f, obs)
  {
    if obs != [] {
      SumShift(f, g, obs[1..], d);
      assert ShiftAll(obs, d)[1..] == ShiftAll(obs[1..], d);
    }
  }

  lemma {:induction false} LeastShift(f: Observation -> real, g: Observation -> real, obs: seq<Observation>, d: real)
    requires obs != [] && Follows(f, g, d)
    ensures Least(g, ShiftAll(obs, d)) == Least(f, obs)
  {
    assert ShiftAll(obs, d)[1..] == ShiftAll(obs[1..], d);
    if |obs| > 1 {
      LeastShift(f, g, obs[1..], d);
    }
  }

  lemma {:induction false} FlattenShift(obs: seq<Observation>, d: real)
    ensures Flatten(ShiftAll(obs, d)) == Flatten(obs)
  {
    if obs != [] {
      FlattenShift(obs[1..], d);
      assert ShiftAll(obs, d)[1..] == ShiftAll(obs[1..], d);
    }
  }

  lemma SameWeights(c: Setting, d: real)
    ensures var c' := c.(now := c.now + d);
            && Follows(Age(c), Age(c'), d) && Follows(Decay(c), Decay(c'), d)
            && Follows(EvidenceWeight(c), EvidenceWeight(c'), d)
            && Follows(WeightedPositivity(c), WeightedPositivity(c'), d)
            && Follows(DecayedQuality(c), DecayedQuality(c'), d)
  {
  }

  lemma ObservedShift(c: Setting, obs: seq<Observation>, d: real)
    requires obs != []
    ensures ObservedPositivity(c.(now := c.now + d), ShiftAll(obs, d)) == ObservedPositivity(c, obs)
    ensures Sum(EvidenceWeight(c.(now := c.now + d)), ShiftAll(obs, d)) == Sum(EvidenceWeight(c), obs)
  {
    var c' := c.(now := c.now + d);
    SameWeights(c, d);
    SumShift(EvidenceWeight(c), EvidenceWeight(c'), obs, d);
    SumShift(WeightedPositivity(c), WeightedPositivity(c'), obs, d);
    SumShift(Positivity(), Positivity(), obs, d);
  }

  lemma {:induction false} ConsistencyShift(num: Numerics, obs: seq<Observation>, d: real)
    requires obs != []
    ensures Consistency(num, ShiftAll(obs, d)) == Consistency(num, obs)
  {
    SumShift(Positivity(), Positivity(), obs, d);
    var f := SquaredDeviation(Mean(Positivity(), obs));
    SumShift(f, f, obs, d);
  }

  lemma {:induction false} ConfidenceShift(obs: seq<Observation>, d: real)
    requires obs != []
    ensures MeanConfidence(ShiftAll(obs, d)) == MeanConfidence(obs)
  {
    SumShift(Confidence(), Confidence(), obs, d);
    var moved := ShiftAll(obs, d);
    if forall o | o in moved :: !o.byModel {
      forall o | o in obs ensures !o.byModel {
        var i :| 0 <= i < |obs| && obs[i] == o;
        assert moved[i] in moved;
      }
    }
  }

  lemma {:induction false} ComponentsShift(c: Setting, obs: seq<Observation>, d: real)
    requires Defined(c) && obs != []
    ensures ComponentsOf(c.(now := c.now + d), ShiftAll(obs, d)) == ComponentsOf(c, obs)
    ensures Least(Age(c.(now := c.now + d)), ShiftAll(obs, d)) == Least(Age(c), obs)
  {
    var c' := c.(now := c.now + d);
    SameWeights(c, d);
    ObservedShift(c, obs, d);
    ConsistencyShift(c.num, obs, d);
    ConfidenceShift(obs, d);
    SumShift(Decay(c), Decay(c'), obs, d);
    SumShift(DecayedQuality(c), DecayedQuality(c'), obs, d);
    SumShift(Engagement(), Engagement(), obs, d);
    LeastShift(Age(c), Age(c'), obs, d);
  }

  lemma PairFactsShift(w: Weights, obs: seq<Observation>, d: real)
    requires obs != []
    ensures PositiveRatio(ShiftAll(obs, d)) == PositiveRatio(obs)
    ensures PriceAvg(ShiftAll(obs, d)) == PriceAvg(obs)
    ensures StatusOf(w, ShiftAll(obs, d)) == StatusOf(w, obs)
  {
    SumShift(IsPositive(), IsPositive(), obs, d);
    SumShift(HasPrice(), HasPrice(), obs, d);
    SumShift(PriceOrZero(), PriceOrZero(), obs, d);
    SumShift(GateWeight(), GateWeight(), obs, d);
  }

  /** Only ages matter: moving the clock and every timestamp together changes nothing. */
  lemma {:induction false} ScoreShift(c: Setting, obs: seq<Observation>, d: real)
    requires Defined(c)
    ensures ComputeDishScore(c.(now := c.now + d), ShiftAll(obs, d)) == ComputeDishScore(c, obs)
  {
    if obs != [] {
      ComponentsShift(c, obs, d);
      ObservedShift(c, obs, d);
      PairFactsShift(c.w, obs, d);
      FlattenShift(obs, d);
    }
  }

  /** The gate reads neither the clock nor any prior. */
  lemma StatusIgnoresClockAndPrior(c: Setting, c': Setting, obs: seq<Observation>)
    requires Defined(c) && Defined(c') && c.w == c'.w
    ensures ComputeDishScore(c, obs).status == ComputeDishScore(c', obs).status
    ensures ComputeDishScore(c, obs).score.Some? <==> ComputeDishScore(c, obs).status.Ranked?
  {
  }

  /** More evidence never unranks a pair. */
  lemma MoreEvidenceStaysRanked(c: Setting, c': Setting, obs: seq<Observation>, o: Observation)
    requires Defined(c) && Defined(c') && c.w == c'.w
    requires ComputeDishScore(c, obs).status.Ranked?
    ensures ComputeDishScore(c', obs + [o]).status.Ranked?
  {
    GateGrows(obs, o);
  }

  lemma {:induction false} GateGrows(obs: seq<Observation>, o: Observation)
    ensures Sum(GateWeight(), obs + [o]) >= Sum(GateWeight(), obs)
  {
    SumAppend(GateWeight(), obs, [o]);
    assert Sum(GateWeight(), [o]) == GateWeight()(o) + Sum(GateWeight(), []);
  }

  // ---- ranges ----

  lemma WeightRange(c: Setting, o: Observation)
    requires c.num.Valid()
    ensures 0.0 < DecayOf(c, o) <= 1.0
    ensures 0.0 <= WeightOf(c, o) <= 0.9
    ensures 0.0 <= PositivityOf(o) <= 1.0
    ensures 0.0 <= WeightedPositivityOf(c, o) <= WeightOf(c, o)
    ensures 0.0 <= DecayedQualityOf(c, o) <= DecayOf(c, o)
  {
    QualityFactor(Times(Max(0.0, Unit(o.confidence)), DecayOf(c, o)), QualityOf(o));
  }

  lemma QualityFactor(x: real, q: real)
    requires 0.0 <= x <= 1.0 && 0.0 <= q <= 0.9
    ensures 0.0 <= Times(x, q) <= 0.9
  {
  }

  lemma WeightSums(c: Setting, obs: seq<Observation>)
    requires c.num.Valid()
    ensures 0.0 <= Sum(WeightedPositivity(c), obs) <= Sum(EvidenceWeight(c), obs) <= 0.9 * (|obs| as real)
    ensures 0.0 <= Sum(DecayedQuality(c), obs) <= Sum(Decay(c), obs)
    ensures obs != [] ==> 0.0 < Sum(Decay(c), obs)
  {
    if obs != [] {
      WeightSums(c, obs[1..]);
      WeightRange(c, obs[0]);
    }
  }

  lemma ObservedRange(c: Setting, obs: seq<Observation>)
    requires c.num.Valid() && obs != []
    ensures 0.0 <= ObservedPositivity(c, obs) <= 1.0
    ensures 0.0 <= Sum(EvidenceWeight(c), obs) <= 0.9 * (|obs| as real)
  {
    WeightSums(c, obs);
    MeanBounds(Positivity(), 0.0, 1.0, obs);
    var total := Sum(EvidenceWeight(c), obs);
    if total > 0.0 {
      QuotientInUnit(Sum(WeightedPositivity(c), obs), total);
    }
  }

  lemma ShrinkRange(p: real, w: real, prior: real, m: real)
    requires 0.0 <= p <= 1.0 && 0.0 <= prior <= 1.0 && m >= 0.0 && w >= 0.0
    ensures 0.0 <= BayesianShrink(p, w, prior, m) <= 1.0
  {
    if w > 0.0 { ConvexMix(p, w, prior, m); }
  }

  /** Values in [0, 1] have population variance at most 1/4. */
  lemma VarianceBound(obs: seq<Observation>)
    requires obs != []
    ensures 0.0 <= Variance(obs) <= 0.25
  {
    var mu, n := Mean(Positivity(), obs), |obs| as real;
    var f := SquaredDeviation(mu);
    SumBoundBelow(f, obs);
    SumSquares(mu, 1.0 - 2.0 * mu, mu * mu, obs);
    QuarterBound(Sum(f, obs), Sum(Positivity(), obs), mu, n);
  }

  lemma QuarterBound(total: real, sum: real, mu: real, n: real)
    requires n > 0.0 && mu == sum / n && 0.0 <= total <= (1.0 - 2.0 * mu) * sum + mu * mu * n
    ensures 0.0 <= total / n <= 0.25
  {
    assert sum == mu * n;
    assert (1.0 - 2.0 * mu) * sum == mu * n - 2.0 * (mu * mu * n);
    SquareNonNegative(mu - 0.5);
    assert (mu - 0.5) * (mu - 0.5) == mu * mu - mu + 0.25;
    MulMonotone(mu - mu * mu, 0.25, n);
    assert (mu - mu * mu) * n == mu * n - mu * mu * n;
    DivBounds(total, n, 0.0, 0.25);
  }

  lemma SumBoundBelow(f: Observation -> real, obs: seq<Observation>)
    requires forall o | o in obs :: f(o) >= 0.0
    ensures Sum(f, obs) >= 0.0
  {
    SumConst(0.0, obs);
    SumLe(Const(0.0), f, obs);
  }

  lemma {:induction false} SumBelowLine(f: Observation -> real, a: real, b: real, obs: seq<Observation>)
    requires forall o | o in obs :: f(o) <= a * PositivityOf(o) + b
    ensures Sum(f, obs) <= a * Sum(Positivity(), obs) + b * (|obs| as real)
  {
    if obs != [] {
      SumBelowLine(f, a, b, obs[1..]);
      var x, rest, n := PositivityOf(obs[0]), Sum(Positivity(), obs[1..]), |obs[1..]| as real;
      AddTerm(a, x, rest, b, n);
      assert f(obs[0]) <= a * x + b;
      assert Sum(Positivity(), obs) == x + rest && |obs| as real == n + 1.0;
    }
  }

  lemma {:induction false} SumSquares(mu: real, a: real, b: real, obs: seq<Observation>)
    requires a == 1.0 - 2.0 * mu && b == mu * mu
    ensures Sum(SquaredDeviation(mu), obs) <= a * Sum(Positivity(), obs) + b * (|obs| as real)
  {
    forall o | o in obs ensures SquaredDeviation(mu)(o) <= a * PositivityOf(o) + b {
      BelowChord(PositivityOf(o), mu, a, b);
    }
    SumBelowLine(SquaredDeviation(mu), a, b, obs);
  }

  lemma AddTerm(a: real, x: real, rest: real, b: real, n: real)
    ensures a * (x + rest) + b * (n + 1.0) == (a * x + b) + (a * rest + b * n)
  {
  }

  lemma BelowChord(p: real, mu: real, a: real, b: real)
    requires 0.0 <= p <= 1.0 && a == 1.0 - 2.0 * mu && b == mu * mu
    ensures Square(p - mu) <= a * p + b
  {
    var pp, mp := p * p, mu * p;
    assert pp <= p by { Scaled(p, p); }
    assert (p - mu) * (p - mu) == pp - 2.0 * mp + mu * mu;
    assert a * p == p - 2.0 * mp;
  }

  lemma SpreadBound(num: Numerics, obs: seq<Observation>)
    requires num.Valid() && obs != []
    ensures 0.0 <= Spread(num, obs) <= 0.5
  {
    VarianceBound(obs);
    SquareRoot(Spread(num, obs), 0.5);
  }

  lemma QualityRange(c: Setting, obs: seq<Observation>)
    requires c.num.Valid() && obs != []
    ensures 0.0 < Sum(Decay(c), obs)
    ensures MeanQuality(c, obs) == Sum(DecayedQuality(c), obs) / Sum(Decay(c), obs)
    ensures 0.0 <= MeanQuality(c, obs) <= 1.0
  {
    WeightSums(c, obs);
    QuotientInUnit(Sum(DecayedQuality(c), obs), Sum(Decay(c), obs));
  }

  predicate InUnit(x: Components) {
    && 0.0 <= x.sentiment <= 1.0 && 0.0 <= x.recency <= 1.0 && 0.0 <= x.consistency <= 1.0
    && 0.0 <= x.volume <= 1.0 && 0.0 <= x.sourceQuality <= 1.0 && 0.0 <= x.engagement <= 1.0
    && 0.0 <= x.confidence <= 1.0
  }

  /** Every component lies in [0, 1], and with convex weights so does their total: its clamp never acts. */
  lemma RawScoreRange(c: Setting, obs: seq<Observation>)
    requires Defined(c) && obs != [] && c.w.Convex()
    ensures InUnit(ComponentsOf(c, obs))
    ensures 0.0 <= WeightedTotal(c.w, ComponentsOf(c, obs)) <= 1.0
    ensures ComputeDishScore(c, obs).rawScore == Some(WeightedTotal(c.w, ComponentsOf(c, obs)))
  {
    TotalRange(c.w, ComponentsOf(c, obs));
  }

  /** The clamps on shrinkage, consistency and source quality never act either. */
  lemma InnerClampsInactive(c: Setting, obs: seq<Observation>)
    requires c.num.Valid() && Defined(c) && obs != [] && 0.0 <= c.PriorValue() <= 1.0
    ensures ComponentsOf(c, obs).sentiment
            == BayesianShrink(ObservedPositivity(c, obs), Sum(EvidenceWeight(c), obs), c.PriorValue(), c.w.bayesM)
    ensures |obs| >= 3 ==> ComponentsOf(c, obs).consistency == 1.0 - Spread(c.num, obs) / 0.5
    ensures Sum(Decay(c), obs) > 0.0
    ensures ComponentsOf(c, obs).sourceQuality == Sum(DecayedQuality(c), obs) / Sum(Decay(c), obs)
  {
    ObservedRange(c, obs);
    ShrinkRange(ObservedPositivity(c, obs), Sum(EvidenceWeight(c), obs), c.PriorValue(), c.w.bayesM);
    SpreadBound(c.num, obs);
    QualityRange(c, obs);
  }

  lemma TotalRange(w: Weights, x: Components)
    requires w.Convex() && InUnit(x)
    ensures 0.0 <= WeightedTotal(w, x) <= 1.0
  {
  }

  // ---- thin evidence ----

  /** The best a sentiment component can do on `k` mentions of any content. */
  function ThinCeiling(k: nat, prior: real, m: real): real
    requires m > 0.0
  {
    prior + Pull(1.0 - prior, 0.9 * (k as real), m)
  }

  lemma ShrinkAsPull(p: real, w: real, prior: real, m: real)
    requires w >= 0.0 && m > 0.0
    ensures BayesianShrink(p, w, prior, m) == prior + Pull(p - prior, w, m)
  {
    if w > 0.0 {
      PullForm(p, w, prior, m);
    } else {
      assert w / (w + m) == 0.0;
    }
  }

  /** The sentiment component is the prior moved by the evidence's pull. */
  lemma {:induction false} SentimentIsPull(c: Setting, obs: seq<Observation>)
    requires c.num.Valid() && Defined(c) && obs != [] && c.w.bayesM > 0.0 && 0.0 <= c.PriorValue() <= 1.0
    ensures 0.0 <= ObservedPositivity(c, obs) <= 1.0
    ensures 0.0 <= Sum(EvidenceWeight(c), obs) <= 0.9 * (|obs| as real)
    ensures ComponentsOf(c, obs).sentiment
            == c.PriorValue() + Pull(ObservedPositivity(c, obs) - c.PriorValue(), Sum(EvidenceWeight(c), obs), c.w.bayesM)
  {
    ObservedRange(c, obs);
    ShrinkRange(ObservedPositivity(c, obs), Sum(EvidenceWeight(c), obs), c.PriorValue(), c.w.bayesM);
    ShrinkAsPull(ObservedPositivity(c, obs), Sum(EvidenceWeight(c), obs), c.PriorValue(), c.w.bayesM);
  }

  /** A handful of mentions cannot move the sentiment component past this ceiling. */
  lemma ThinEvidenceCeiling(c: Setting, obs: seq<Observation>)
    requires c.num.Valid() && Defined(c) && obs != [] && c.w.bayesM > 0.0
    requires 0.0 <= c.PriorValue() <= 1.0
    ensures ComponentsOf(c, obs).sentiment <= ThinCeiling(|obs|, c.PriorValue(), c.w.bayesM)
  {
    SentimentIsPull(c, obs);
    PullBound(ObservedPositivity(c, obs) - c.PriorValue(), 1.0 - c.PriorValue(),
              Sum(EvidenceWeight(c), obs), 0.9 * (|obs| as real), c.w.bayesM);
  }

  /**
   * Thin evidence cannot beat thick: once the thick entry's pull above the prior reaches the thin
   * entry's ceiling, it has at least as many mentions, and its remaining components are no lower,
   * its raw score is no lower, whatever the thin mentions say.
   */
  lemma ThinCannotBeatThick(c: Setting, thin: seq<Observation>, thick: seq<Observation>)
    requires c.num.Valid() && Defined(c) && c.w.Convex() && c.w.bayesM > 0.0 && c.w.volumeSaturation > 0.0
    requires 0.0 <= c.PriorValue() <= 1.0
    requires thin != [] && |thin| <= |thick|
    requires Sum(EvidenceWeight(c), thick) >= 0.0
    requires c.PriorValue() + Pull(ObservedPositivity(c, thick) - c.PriorValue(), Sum(EvidenceWeight(c), thick), c.w.bayesM)
             >= ThinCeiling(|thin|, c.PriorValue(), c.w.bayesM)
    requires var x, y := ComponentsOf(c, thin), ComponentsOf(c, thick);
             && x.recency <= y.recency && x.consistency <= y.consistency && x.sourceQuality <= y.sourceQuality
             && x.engagement <= y.engagement && x.confidence <= y.confidence
    ensures ComputeDishScore(c, thin).rawScore.value <= ComputeDishScore(c, thick).rawScore.value
  {
    ThinEvidenceCeiling(c, thin);
    SentimentIsPull(c, thick);
    VolumeGrows(c, |thin|, |thick|);
    RawScoreRange(c, thin);
    RawScoreRange(c, thick);
    TotalMonotone(c.w, ComponentsOf(c, thin), ComponentsOf(c, thick));
  }

  lemma VolumeGrows(c: Setting, j: nat, k: nat)
    requires c.num.Valid() && j <= k && c.w.volumeSaturation > 0.0
    ensures Unit(Saturating(c.num, j as real, c.w.volumeSaturation)) <= Unit(Saturating(c.num, k as real, c.w.volumeSaturation))
  {
    assert c.num.log1p(0.0) < c.num.log1p(c.w.volumeSaturation) && c.num.log1p(j as real) <= c.num.log1p(k as real);
    DivMonotone(c.num.log1p(j as real), c.num.log1p(k as real), c.num.log1p(c.w.volumeSaturation));
  }

  lemma TotalMonotone(w: Weights, x: Components, y: Components)
    requires w.Convex()
    requires x.sentiment <= y.sentiment && x.recency <= y.recency && x.consistency <= y.consistency && x.volume <= y.volume
    requires x.sourceQuality <= y.sourceQuality && x.engagement <= y.engagement && x.confidence <= y.confidence
    ensures WeightedTotal(w, x) <= WeightedTotal(w, y)
  {
    MulMonotone(x.sentiment, y.sentiment, w.sentiment);
    MulMonotone(x.recency, y.recency, w.recency);
    MulMonotone(x.consistency, y.consistency, w.consistency);
    MulMonotone(x.volume, y.volume, w.volume);
    MulMonotone(x.sourceQuality, y.sourceQuality, w.sourceQuality);
    MulMonotone(x.engagement, y.engagement, w.engagement);
    MulMonotone(x.confidence, y.confidence, w.confidence);
  }
}
