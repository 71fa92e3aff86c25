/** What each part of a score means on its own: which way it moves, and where it is fixed. */
module ScoreLaws {
  import opened Wrappers
  import opened Reals
  import opened Stats
  import opened Scoring
  import Evidence
  import Trends

  /** Raising one component raises the total by its own weight, and by nothing else. */
  lemma EachHasItsWeight(w: Weights, x: Components, d: real)
    ensures WeightedTotal(w, x.(sentiment := x.sentiment + d)) == WeightedTotal(w, x) + d * w.sentiment
    ensures WeightedTotal(w, x.(recency := x.recency + d)) == WeightedTotal(w, x) + d * w.recency
    ensures WeightedTotal(w, x.(consistency := x.consistency + d)) == WeightedTotal(w, x) + d * w.consistency
    ensures WeightedTotal(w, x.(volume := x.volume + d)) == WeightedTotal(w, x) + d * w.volume
    ensures WeightedTotal(w, x.(sourceQuality := x.sourceQuality + d)) == WeightedTotal(w, x) + d * w.sourceQuality
    ensures WeightedTotal(w, x.(engagement := x.engagement + d)) == WeightedTotal(w, x) + d * w.engagement
    ensures WeightedTotal(w, x.(confidence := x.confidence + d)) == WeightedTotal(w, x) + d * w.confidence
  {
    Shifted(x.sentiment, d, w.sentiment);
    Shifted(x.recency, d, w.recency);
    Shifted(x.consistency, d, w.consistency);
    Shifted(x.volume, d, w.volume);
    Shifted(x.sourceQuality, d, w.sourceQuality);
    Shifted(x.engagement, d, w.engagement);
    Shifted(x.confidence, d, w.confidence);
  }

  lemma Shifted(x: real, d: real, w: real)
    ensures Times(x + d, w) == Times(x, w) + d * w
  {
  }

  // ---- quality per rupee ----

  lemma ClampMonotone(x: real, y: real, low: real, high: real)
    requires x <= y && low <= high
    ensures low <= Clamp(x, low, high) <= Clamp(y, low, high) <= high
    ensures low <= x <= high ==> Clamp(x, low, high) == x
  {
  }

  lemma CheaperRatio(median: real, price: real, dearer: real)
    requires 0.0 < price <= dearer && median > 0.0
    ensures median / dearer <= median / price
  {
    MulMonotone(price, dearer, median);
    QuotientOrder(median, dearer, median, price);
  }

  /** There is a value score exactly for a price that is not zero and a positive city median. */
  lemma ValueScoreExistsIff(sentiment: real, price: Option<real>, median: Option<real>)
    ensures ValueScore(sentiment, price, median).Some?
            <==> price.Some? && price.value != 0.0 && median.Some? && median.value > 0.0
    ensures ValueScore(sentiment, price, median).Some? ==> 0.0 <= ValueScore(sentiment, price, median).value <= 1.0
  {
  }

  /** It never rises with the price, and at the median price it is the sentiment. */
  lemma ValueScoreLaws(sentiment: real, price: real, dearer: real, median: real)
    requires 0.0 <= sentiment <= 1.0 && 0.0 < price <= dearer && median > 0.0
    ensures ValueScore(sentiment, Some(price), Some(median)).Some?
    ensures ValueScore(sentiment, Some(dearer), Some(median)).value <= ValueScore(sentiment, Some(price), Some(median)).value
    ensures ValueScore(sentiment, Some(median), Some(median)) == Some(sentiment)
    ensures ValueScore(sentiment, None, Some(median)).None? && ValueScore(sentiment, Some(price), None).None?
    ensures ValueScore(sentiment, Some(0.0), Some(median)).None?
    ensures forall m: real :: m <= 0.0 ==> ValueScore(sentiment, Some(price), Some(m)).None?
  {
    ValueFalls(sentiment, price, dearer, median);
    assert median / median == 1.0;
    ClampMonotone(1.0, 1.0, 0.5, 1.6);
  }

  lemma ValueFalls(sentiment: real, price: real, dearer: real, median: real)
    requires 0.0 <= sentiment <= 1.0 && 0.0 < price <= dearer && median > 0.0
    ensures Unit(sentiment * Clamp(median / dearer, 0.5, 1.6)) <= Unit(sentiment * Clamp(median / price, 0.5, 1.6))
  {
    CheaperRatio(median, price, dearer);
    RatioFalls(sentiment, median / dearer, median / price);
  }

  lemma RatioFalls(sentiment: real, less: real, more: real)
    requires sentiment >= 0.0 && less <= more
    ensures Unit(sentiment * Clamp(less, 0.5, 1.6)) <= Unit(sentiment * Clamp(more, 0.5, 1.6))
  {
    ClampMonotone(less, more, 0.5, 1.6);
    ScaledUnit(sentiment, Clamp(less, 0.5, 1.6), Clamp(more, 0.5, 1.6));
  }

  lemma ScaledUnit(s: real, x: real, y: real)
    requires s >= 0.0 && x <= y
    ensures Unit(s * x) <= Unit(s * y)
  {
    MulMonotone(x, y, s);
    var a, b := s * x, s * y;
    assert a <= b;
  }

  // ---- consistency ----

  /** Reviewers who agree are consistent, whatever they agree on. */
  lemma UnanimityIsConsistent(num: Numerics, obs: seq<Observation>, p: real)
    requires num.Valid() && |obs| >= 3 && forall o | o in obs :: PositivityOf(o) == p
    ensures Consistency(num, obs) == 1.0
  {
    MeanBounds(Positivity(), p, p, obs);
    var mu := Mean(Positivity(), obs);
    forall o | o in obs ensures SquaredDeviation(mu)(o) == 0.0 { assert Square(0.0) == 0.0; }
    MeanBounds(SquaredDeviation(mu), 0.0, 0.0, obs);
    assert Variance(obs) == 0.0;
    var s := num.sqrt(0.0);
    assert s >= 0.0 && s * s == 0.0;
    SquareRoot(s, 0.0);
    assert Spread(num, obs) / 0.5 == 0.0;
  }

  // ---- more evidence ----

  /** Older evidence weighs no more. */
  ghost predicate Fades(num: Numerics) {
    forall x, y | 0.0 <= x <= y :: num.halfPower(y) <= num.halfPower(x)
  }

  lemma DecayFades(num: Numerics, x: real, y: real, halflife: real)
    requires num.Valid() && Fades(num) && 0.0 <= x <= y
    ensures TimeDecay(num, y, halflife) <= TimeDecay(num, x, halflife)
  {
    if halflife > 0.0 {
      DivMonotone(0.0, x, halflife);
      DivMonotone(x, y, halflife);
    }
  }

  lemma LeastGrows(f: Observation -> real, obs: seq<Observation>, o: Observation)
    requires obs != []
    ensures Least(f, obs + [o]) <= Least(f, obs)
  {
    var r := Least(f, obs);
    var x :| x in obs && r == f(x);
    assert x in obs + [o];
  }

  lemma LeastAge(c: Setting, obs: seq<Observation>)
    requires obs != []
    ensures Least(Age(c), obs) >= 0.0
  {
    var r := Least(Age(c), obs);
    var x :| x in obs && r == Age(c)(x);
  }

  lemma SaturatingGrows(num: Numerics, x: real, y: real, saturation: real)
    requires num.Valid() && 0.0 <= x <= y && saturation > 0.0
    ensures num.log1p(saturation) != 0.0 && Saturating(num, x, saturation) <= Saturating(num, y, saturation)
  {
    assert num.log1p(0.0) < num.log1p(saturation);
    assert num.log1p(x) <= num.log1p(y);
    DivMonotone(num.log1p(x), num.log1p(y), num.log1p(saturation));
  }

  lemma {:induction false} EngagementPositive(obs: seq<Observation>)
    ensures Sum(Engagement(), obs) >= 0.0
  {
    if obs != [] { EngagementPositive(obs[1..]); }
  }

  /** One more mention never lowers recency, volume or engagement. */
  lemma MoreEvidenceMoreOfThese(c: Setting, obs: seq<Observation>, o: Observation)
    requires c.num.Valid() && Fades(c.num) && Defined(c) && obs != []
    requires c.w.volumeSaturation > 0.0 && c.w.engagementSaturation > 0.0
    ensures var x, y := ComponentsOf(c, obs), ComponentsOf(c, obs + [o]);
            x.recency <= y.recency && x.volume <= y.volume && x.engagement <= y.engagement
  {
    LeastGrows(Age(c), obs, o);
    LeastAge(c, obs + [o]);
    DecayFades(c.num, Least(Age(c), obs + [o]), Least(Age(c), obs), c.w.halflifeDays);
    SaturatingGrows(c.num, |obs| as real, |obs + [o]| as real, c.w.volumeSaturation);
    SumAppend(Engagement(), obs, [o]);
    EngagementPositive(obs);
    EngagementPositive([o]);
    SaturatingGrows(c.num, Sum(Engagement(), obs), Sum(Engagement(), obs + [o]), c.w.engagementSaturation);
  }

  // ---- counts and rates ----

  /** Positive, negative and neutral mentions make up all of them. */
  lemma {:induction false} CountsPartition(obs: seq<Observation>)
    ensures var r := Evidence.CountsOf(obs); r.neutral >= 0 && r.positive + r.negative + r.neutral == r.mentions == |obs|
  {
    if obs != [] { CountsPartition(obs[1..]); }
  }

  /** A surge compares rates a day: the ratio reaches `s` exactly when the recent rate is `s` times the historical one. */
  lemma SurgeComparesRates(cfg: Trends.TrendConfig, recent: nat, historical: nat, s: real)
    requires historical > 0
    ensures Trends.VolumeRatio(cfg, recent, historical) >= s
            <==> recent as real / Trends.AtLeastOne(cfg.recentDays) as real
                 >= s * (historical as real / Trends.AtLeastOne(cfg.historicalDays - cfg.recentDays) as real)
  {
    var r := recent as real / Trends.AtLeastOne(cfg.recentDays) as real;
    var days := Trends.AtLeastOne(cfg.historicalDays - cfg.recentDays) as real;
    var h := historical as real / days;
    assert h * days == historical as real;
    if h <= 0.0 { MulMonotone(h, 0.0, days); }
    var q := r / h;
    assert q * h == r;
    MulOrder(q, s, h);
  }
}
