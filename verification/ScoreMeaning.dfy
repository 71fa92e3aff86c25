/** What single parts of a score are: weights, gates, components and prices, fixed where the evidence fixes them. */
module ScoreMeaning {
  import opened Wrappers
  import opened Reals
  import opened Stats
  import opened Sorting
  import opened Strings
  import opened Scoring
  import opened ScoreBounds
  import opened ScoreLaws
  import Evidence

  // ---- the weight of one observation ----

  /** Sources rank from Google's and OSM's bare listings up to verified users; a new account is damped to 0.6. */
  lemma SourcesRank()
    ensures 0.0 < SourceQuality(Osm, true) < SourceQuality(Google, true) < SourceQuality(YouTube, true)
    ensures SourceQuality(YouTube, true) == SourceQuality(User, false) < SourceQuality(Reddit, true) < SourceQuality(Manual, true)
    ensures SourceQuality(Manual, true) < SourceQuality(User, true) == 0.9
    ensures forall s: Source :: s != User ==> SourceQuality(s, true) == SourceQuality(s, false)
  {
  }

  /** Full confidence today from a verified user weighs 0.9; doubt, age and poorer sources only take from that. */
  lemma FullWeight(c: Setting, o: Observation)
    requires c.num.Valid()
    ensures o.confidence >= 1.0 && o.observedAt == Some(c.now) && o.source == User && o.verifiedAuthor ==> WeightOf(c, o) == 0.9
    ensures o.confidence <= 0.0 ==> WeightOf(c, o) == 0.0 && GateWeightOf(o) == 0.0
    ensures WeightOf(c, o) <= GateWeightOf(o) <= 0.9
  {
    WeightRange(c, o);
    var x := Max(0.0, Unit(o.confidence));
    if o.confidence <= 0.0 { assert x == 0.0 && Times(0.0, DecayOf(c, o)) == 0.0; }
    Scaled(DecayOf(c, o), x);
    Swap(x, DecayOf(c, o));
    MulMonotone(Times(x, DecayOf(c, o)), x, QualityOf(o));
    if x == 1.0 { assert Times(1.0, 1.0) == 1.0 && Times(1.0, 0.9) == 0.9; }
  }

  /** More confidence never weighs less. */
  lemma MoreConfidence(c: Setting, o: Observation, x: real)
    requires c.num.Valid() && x >= o.confidence
    ensures WeightOf(c, o.(confidence := x)) >= WeightOf(c, o) && GateWeightOf(o.(confidence := x)) >= GateWeightOf(o)
  {
    var low, high := Max(0.0, Unit(o.confidence)), Max(0.0, Unit(x));
    ClampMonotone(o.confidence, x, 0.0, 1.0);
    WeightRange(c, o);
    MulMonotone(low, high, DecayOf(c, o));
    MulMonotone(Times(low, DecayOf(c, o)), Times(high, DecayOf(c, o)), QualityOf(o));
    MulMonotone(low, high, QualityOf(o));
  }

  /** A later date never weighs less; a date to come weighs as today, and no date as one a year ago. */
  lemma Freshness(c: Setting, o: Observation, s: real, t: real)
    requires c.num.Valid() && Fades(c.num) && s <= t
    ensures WeightOf(c, o.(observedAt := Some(s))) <= WeightOf(c, o.(observedAt := Some(t)))
    ensures t >= c.now ==> WeightOf(c, o.(observedAt := Some(t))) == WeightOf(c, o.(observedAt := Some(c.now)))
    ensures WeightOf(c, o.(observedAt := None)) == WeightOf(c, o.(observedAt := Some(c.now - 365.0)))
  {
    var early, late, x := o.(observedAt := Some(s)), o.(observedAt := Some(t)), Max(0.0, Unit(o.confidence));
    DecayFades(c.num, AgeOf(c, late), AgeOf(c, early), c.w.halflifeDays);
    MulMonotone(DecayOf(c, early), DecayOf(c, late), x);
    Swap(x, DecayOf(c, early));
    Swap(x, DecayOf(c, late));
    MulMonotone(Times(x, DecayOf(c, early)), Times(x, DecayOf(c, late)), QualityOf(o));
  }

  lemma Swap(x: real, y: real)
    ensures Times(x, y) == Times(y, x)
  {
  }

  /** `halfPower` halves at every step, from one. */
  ghost predicate Halves(num: Numerics) {
    num.halfPower(0.0) == 1.0 && forall x | x >= 0.0 :: num.halfPower(x + 1.0) == num.halfPower(x) / 2.0
  }

  /** After each half-life half the weight is left. */
  lemma HalfLife(c: Setting, o: Observation, age: real)
    requires Halves(c.num) && age >= 0.0 && c.w.halflifeDays > 0.0
    ensures WeightOf(c, o.(observedAt := Some(c.now - age - c.w.halflifeDays))) == WeightOf(c, o.(observedAt := Some(c.now - age))) / 2.0
  {
    var h := c.w.halflifeDays;
    var young, aged, x := o.(observedAt := Some(c.now - age)), o.(observedAt := Some(c.now - age - h)), Max(0.0, Unit(o.confidence));
    OneMoreHalfLife(c.num, age, h);
    assert AgeOf(c, young) == age && AgeOf(c, aged) == age + h;
    Halve(x, DecayOf(c, young));
    Swap(Times(x, DecayOf(c, young)), QualityOf(o));
    Halve(QualityOf(o), Times(x, DecayOf(c, young)));
    Swap(Times(x, DecayOf(c, aged)), QualityOf(o));
  }

  lemma OneMoreHalfLife(num: Numerics, age: real, h: real)
    requires Halves(num) && age >= 0.0 && h > 0.0
    ensures TimeDecay(num, age + h, h) == TimeDecay(num, age, h) / 2.0
  {
    var q := age / h;
    assert q * h == age;
    if q < 0.0 { MulMonotone(q, 0.0, h); MulOrder(0.0, q, h); }
    Sum1(age, h);
    assert num.halfPower(q + 1.0) == num.halfPower(q) / 2.0;
  }

  lemma Sum1(x: real, h: real)
    requires h > 0.0
    ensures (x + h) / h == x / h + 1.0
  {
    var q, r := x / h, (x + h) / h;
    assert q * h == x && r * h == x + h;
    assert (q + 1.0) * h == q * h + h;
    MulOrder(r, q + 1.0, h);
    MulOrder(q + 1.0, r, h);
  }

  lemma Halve(x: real, y: real)
    ensures Times(x, y / 2.0) == Times(x, y) / 2.0
  {
  }

  // ---- the gate ----

  lemma {:induction false} SumOf(f: Observation -> real, obs: seq<Observation>, v: real)
    requires forall o | o in obs :: f(o) == v
    ensures Sum(f, obs) == v * |obs| as real
  {
    SumBounds(f, v, v, obs);
  }

  /** Mentions of full confidence by verified users rank a pair exactly by their number: enough of them, at 0.9 each. */
  lemma {:induction false} RankedIff(c: Setting, obs: seq<Observation>)
    requires Defined(c) && forall o | o in obs :: o.confidence >= 1.0 && o.source == User && o.verifiedAuthor
    ensures ComputeDishScore(c, obs).status == Ranked
            <==> obs != [] && |obs| >= c.w.minMentions && 0.9 * |obs| as real >= c.w.minWeight
  {
    UniformGate(obs);
    StatusIs(c, obs, Sum(GateWeight(), obs));
  }

  lemma {:induction false} UniformGate(obs: seq<Observation>)
    requires forall o | o in obs :: o.confidence >= 1.0 && o.source == User && o.verifiedAuthor
    ensures Sum(GateWeight(), obs) == 0.9 * |obs| as real
  {
    forall o | o in obs ensures GateWeight()(o) == 0.9 { assert Times(1.0, 0.9) == 0.9; }
    SumOf(GateWeight(), obs, 0.9);
  }

  lemma {:induction false} StatusIs(c: Setting, obs: seq<Observation>, gate: real)
    requires Defined(c) && gate == Sum(GateWeight(), obs)
    ensures ComputeDishScore(c, obs).status == Ranked <==> obs != [] && |obs| >= c.w.minMentions && gate >= c.w.minWeight
  {
  }

  // ---- agreement ----

  lemma {:induction false} ZeroSum(f: Observation -> real, obs: seq<Observation>)
    requires Sum(f, obs) == 0.0 && forall o | o in obs :: f(o) >= 0.0
    ensures forall o | o in obs :: f(o) == 0.0
  {
    if obs != [] {
      SumBoundBelow(f, obs[1..]);
      assert obs == [obs[0]] + obs[1..];
      ZeroSum(f, obs[1..]);
    }
  }

  lemma ZeroSquare(x: real)
    requires Square(x) == 0.0
    ensures x == 0.0
  {
    var y := if x > 0.0 then x else -x;
    assert y * y == x * x == Square(x);
    SquareRoot(y, 0.0);
  }

  lemma ZeroQuotient(x: real, n: real)
    requires n > 0.0 && x / n == 0.0
    ensures x == 0.0
  {
    assert (x / n) * n == x;
  }

  lemma {:induction false} NoVarianceNoDifference(obs: seq<Observation>)
    requires obs != [] && Variance(obs) == 0.0
    ensures forall o, p | o in obs && p in obs :: PositivityOf(o) == PositivityOf(p)
  {
    var mu := Mean(Positivity(), obs);
    ZeroQuotient(Sum(SquaredDeviation(mu), obs), |obs| as real);
    ZeroSum(SquaredDeviation(mu), obs);
    forall o | o in obs ensures PositivityOf(o) == mu {
      assert SquaredDeviation(mu)(o) == 0.0;
      ZeroSquare(PositivityOf(o) - mu);
    }
  }

  /** With three mentions or more consistency is full exactly if all say the same. */
  lemma {:induction false} ConsistentIff(num: Numerics, obs: seq<Observation>)
    requires num.Valid() && |obs| >= 3 && forall o | o in obs :: -1.0 <= o.sentiment <= 1.0
    ensures Consistency(num, obs) == 1.0 <==> forall o, p | o in obs && p in obs :: o.sentiment == p.sentiment
  {
    if forall o, p | o in obs && p in obs :: o.sentiment == p.sentiment {
      assert obs[0] in obs;
      UnanimityIsConsistent(num, obs, PositivityOf(obs[0]));
    }
    if Consistency(num, obs) == 1.0 {
      SpreadBound(num, obs);
      VarianceBound(obs);
      assert Spread(num, obs) == 0.0 && Variance(obs) == 0.0;
      NoVarianceNoDifference(obs);
      forall o, p | o in obs && p in obs ensures o.sentiment == p.sentiment { assert PositivityOf(o) == PositivityOf(p); }
    }
  }

  /** Reviewers split evenly between full praise and full blame are not consistent at all. */
  lemma {:induction false} SplitIsInconsistent(num: Numerics, praise: seq<Observation>, blame: seq<Observation>)
    requires num.Valid() && |praise| == |blame| >= 2
    requires (forall o | o in praise :: o.sentiment >= 1.0) && (forall o | o in blame :: o.sentiment <= -1.0)
    ensures Consistency(num, praise + blame) == 0.0
  {
    var obs := praise + blame;
    SplitMean(praise, blame);
    var f := SquaredDeviation(0.5);
    forall o | o in obs ensures f(o) == 0.25 { QuarterAway(o); }
    MeanBounds(f, 0.25, 0.25, obs);
    assert Variance(obs) == 0.25;
    RootOfQuarter(num);
    assert Spread(num, obs) == 0.5;
  }

  lemma {:induction false} SplitMean(praise: seq<Observation>, blame: seq<Observation>)
    requires |praise| == |blame| > 0
    requires (forall o | o in praise :: o.sentiment >= 1.0) && (forall o | o in blame :: o.sentiment <= -1.0)
    ensures Mean(Positivity(), praise + blame) == 0.5
  {
    var n := |praise| as real;
    SumOf(Positivity(), praise, 1.0);
    SumOf(Positivity(), blame, 0.0);
    SumAppend(Positivity(), praise, blame);
    assert |praise + blame| as real == n + n;
    HalfOf(n);
  }

  lemma HalfOf(n: real)
    requires n > 0.0
    ensures n / (n + n) == 0.5
  {
  }

  lemma QuarterAway(o: Observation)
    requires o.sentiment >= 1.0 || o.sentiment <= -1.0
    ensures SquaredDeviationOf(0.5, o) == 0.25
  {
    assert Square(0.5) == 0.25 && Square(-0.5) == 0.25;
  }

  lemma RootOfQuarter(num: Numerics)
    requires num.Valid()
    ensures num.sqrt(0.25) == 0.5
  {
    var s := num.sqrt(0.25);
    assert s * s == 0.25 && 0.5 * 0.5 == 0.25 && s >= 0.0;
    SquareRoot(s, 0.5);
    SquareRoot(0.5, s);
  }

  /** Fewer than three mentions say nothing about agreement. */
  lemma ThinIsNeutral(num: Numerics, obs: seq<Observation>)
    requires 0 < |obs| < 3
    ensures Consistency(num, obs) == 0.5
  {
  }

  // ---- the other components ----

  lemma {:induction false} QualityBetween(c: Setting, obs: seq<Observation>, lo: real, hi: real)
    requires c.num.Valid() && forall o | o in obs :: lo <= QualityOf(o) <= hi
    ensures Times(lo, Sum(Decay(c), obs)) <= Sum(DecayedQuality(c), obs) <= Times(hi, Sum(Decay(c), obs))
  {
    if obs == [] {
      assert Times(lo, 0.0) == 0.0 == Times(hi, 0.0);
    } else {
      QualityBetween(c, obs[1..], lo, hi);
      WeightRange(c, obs[0]);
      MulMonotone(lo, QualityOf(obs[0]), DecayOf(c, obs[0]));
      MulMonotone(QualityOf(obs[0]), hi, DecayOf(c, obs[0]));
      Split(lo, DecayOf(c, obs[0]), Sum(Decay(c), obs[1..]));
      Split(hi, DecayOf(c, obs[0]), Sum(Decay(c), obs[1..]));
    }
  }

  lemma Split(p: real, a: real, b: real)
    ensures Times(p, a + b) == Times(p, a) + Times(p, b)
  {
  }

  /** Source quality is a mean of the qualities of the sources: between the poorest and the best of them. */
  lemma {:induction false} QualityIsMean(c: Setting, obs: seq<Observation>, lo: real, hi: real)
    requires c.num.Valid() && Defined(c) && obs != []
    requires forall o | o in obs :: lo <= SourceQuality(o.source, o.verifiedAuthor) <= hi
    ensures lo <= ComponentsOf(c, obs).sourceQuality <= hi
  {
    QualityRange(c, obs);
    QualityBetween(c, obs, lo, hi);
    RatioBounds(Sum(DecayedQuality(c), obs), Sum(Decay(c), obs), lo, hi);
    QualityComponent(c, obs);
  }

  lemma {:induction false} QualityComponent(c: Setting, obs: seq<Observation>)
    requires c.num.Valid() && Defined(c) && obs != []
    ensures ComponentsOf(c, obs).sourceQuality == MeanQuality(c, obs)
  {
    QualityRange(c, obs);
  }

  lemma RatioBounds(x: real, d: real, lo: real, hi: real)
    requires d > 0.0 && Times(lo, d) <= x <= Times(hi, d)
    ensures lo <= x / d <= hi
  {
    DivBounds(x, d, lo, hi);
  }

  lemma Saturated(num: Numerics, x: real, saturation: real)
    requires num.Valid() && saturation > 0.0 && x >= saturation
    ensures num.log1p(saturation) != 0.0 && Unit(Saturating(num, x, saturation)) == 1.0
  {
    SaturatingGrows(num, saturation, x, saturation);
    assert Saturating(num, saturation, saturation) == 1.0;
  }

  /** Volume is full from its saturation on. */
  lemma {:induction false} VolumeSaturates(c: Setting, obs: seq<Observation>)
    requires c.num.Valid() && Defined(c) && obs != [] && c.w.volumeSaturation > 0.0 && |obs| as real >= c.w.volumeSaturation
    ensures ComponentsOf(c, obs).volume == 1.0
  {
    Saturated(c.num, |obs| as real, c.w.volumeSaturation);
  }

  /** So is engagement, by one mention if need be. */
  lemma {:induction false} EngagementSaturates(c: Setting, obs: seq<Observation>, o: Observation)
    requires c.num.Valid() && Defined(c) && c.w.engagementSaturation > 0.0
    requires o in obs && o.engagement as real >= c.w.engagementSaturation
    ensures ComponentsOf(c, obs).engagement == 1.0
  {
    OneEngaged(obs, o);
    Saturated(c.num, Sum(Engagement(), obs), c.w.engagementSaturation);
  }

  /** Without a positive engagement there is none: negative ones take nothing away. */
  lemma {:induction false} NoEngagement(c: Setting, obs: seq<Observation>)
    requires c.num.Valid() && Defined(c) && obs != [] && forall o | o in obs :: o.engagement <= 0
    ensures ComponentsOf(c, obs).engagement == 0.0
  {
    SumOf(Engagement(), obs, 0.0);
    assert Sum(Engagement(), obs) == 0.0;
    NoneSaturates(c.num, c.w.engagementSaturation);
  }

  lemma NoneSaturates(num: Numerics, saturation: real)
    requires num.Valid() && num.log1p(saturation) != 0.0
    ensures Unit(Saturating(num, 0.0, saturation)) == 0.0
  {
    ZeroOver(num.log1p(saturation));
  }

  lemma ZeroOver(d: real)
    requires d != 0.0
    ensures 0.0 / d == 0.0
  {
  }

  lemma {:induction false} OneEngaged(obs: seq<Observation>, o: Observation)
    requires o in obs && o.engagement > 0
    ensures Sum(Engagement(), obs) >= o.engagement as real
  {
    EngagementPositive(obs[1..]);
    if obs[0] != o { OneEngaged(obs[1..], o); }
  }

  /** Mentions of one confidence give that confidence, less 15% without a model's reading and 20% below three of them. */
  lemma {:induction false} ConfidenceIs(c: Setting, obs: seq<Observation>, x: real)
    requires Defined(c) && obs != [] && 0.0 <= x <= 1.0 && forall o | o in obs :: o.confidence == x
    ensures ComponentsOf(c, obs).confidence
            == x * (if exists o :: o in obs && o.byModel then 1.0 else 0.85) * (if |obs| >= 3 then 1.0 else 0.8)
  {
    MeanBounds(Confidence(), x, x, obs);
    Scaled(x, 0.85);
    Scaled(x * 0.85, 0.8);
    Scaled(x, 0.8);
  }

  /** The reported age is that of the newest mention. */
  lemma {:induction false} RecencyIsNewest(c: Setting, obs: seq<Observation>)
    requires Defined(c) && obs != []
    ensures ComputeDishScore(c, obs).recencyDays.Some?
    ensures var days := ComputeDishScore(c, obs).recencyDays.value;
            && (forall o | o in obs && o.observedAt.Some? :: days <= (if o.observedAt.value >= c.now then 0.0 else c.now - o.observedAt.value))
            && (forall o | o in obs && o.observedAt.None? :: days <= 365.0)
            && (exists o :: o in obs && days == (match o.observedAt case None => 365.0 case Some(t) => if t >= c.now then 0.0 else c.now - t))
  {
    forall o | o in obs ensures Age(c)(o) == (match o.observedAt case None => 365.0 case Some(t) => if t >= c.now then 0.0 else c.now - t) {}
  }

  /** The score is the raw score as a percentage, for ranked pairs only; nothing without evidence; and a total without components is zero. */
  lemma ScoreIsPercent(c: Setting, obs: seq<Observation>)
    requires Defined(c)
    ensures var r := ComputeDishScore(c, obs);
            && (r.score.Some? ==> r.rawScore.Some? && r.score.value == 100.0 * r.rawScore.value)
            && (obs == [] ==> r.status == InsufficientData && r.score.None? && r.rawScore.None? && r.mentionCount == 0)
            && (obs != [] ==> r.mentionCount == |obs| && r.bayesianScore == Some(r.components.sentiment)
                              && r.consistency == r.components.consistency)
    ensures WeightedTotal(c.w, Components(0.0, 0.0, 0.0, 0.0, 0.0, 0.0, 0.0)) == 0.0
  {
    ZeroTimes(c.w.sentiment);
    ZeroTimes(c.w.recency);
    ZeroTimes(c.w.consistency);
    ZeroTimes(c.w.volume);
    ZeroTimes(c.w.sourceQuality);
    ZeroTimes(c.w.engagement);
    ZeroTimes(c.w.confidence);
  }

  /** What is reported beside the score: the evidence's own numbers, and in the stored row those among them that are the pair's own. */
  lemma {:induction false} ScoreReports(c: Setting, obs: seq<Observation>)
    requires Defined(c) && obs != []
    ensures var r, row := ComputeDishScore(c, obs), Evidence.Own(ComputeDishScore(c, obs));
            && r.priceAvg == PriceAvg(obs) && r.topAttributes == TopAttributes(obs) && r.evidenceWeight == Sum(EvidenceWeight(c), obs)
            && r.valueScore == ValueScore(r.components.sentiment, r.priceAvg, c.cityMedianPrice)
            && row.status == r.status && row.mentionCount == r.mentionCount && row.positiveRatio == r.positiveRatio
            && row.consistency == r.consistency && row.priceAvg == r.priceAvg && row.topAttributes == r.topAttributes
  {
  }

  lemma ZeroTimes(w: real)
    ensures Times(0.0, w) == 0.0
  {
  }

  // ---- prices ----

  predicate Priced(o: Observation) { o.price.Some? && o.price.value > 0.0 }

  lemma {:induction false} PriceSums(obs: seq<Observation>, lo: real, hi: real)
    requires forall o | o in obs && Priced(o) :: lo <= o.price.value <= hi
    ensures Sum(HasPrice(), obs) >= 0.0 && (Sum(HasPrice(), obs) == 0.0 <==> forall o | o in obs :: !Priced(o))
    ensures Times(lo, Sum(HasPrice(), obs)) <= Sum(PriceOrZero(), obs) <= Times(hi, Sum(HasPrice(), obs))
  {
    if obs == [] {
      assert Times(lo, 0.0) == 0.0 == Times(hi, 0.0);
    } else {
      PriceSums(obs[1..], lo, hi);
      assert obs == [obs[0]] + obs[1..];
      OnePrice(obs[0], lo, hi);
      Split(lo, HasPrice()(obs[0]), Sum(HasPrice(), obs[1..]));
      Split(hi, HasPrice()(obs[0]), Sum(HasPrice(), obs[1..]));
    }
  }

  lemma OnePrice(o: Observation, lo: real, hi: real)
    requires Priced(o) ==> lo <= o.price.value <= hi
    ensures HasPrice()(o) == (if Priced(o) then 1.0 else 0.0)
    ensures Times(lo, HasPrice()(o)) <= PriceOrZero()(o) <= Times(hi, HasPrice()(o))
  {
    assert Times(lo, 1.0) == lo && Times(hi, 1.0) == hi && Times(lo, 0.0) == 0.0 && Times(hi, 0.0) == 0.0;
  }

  /** There is a mean price exactly if some mention names a positive one, and it lies between the lowest and the highest of those. */
  lemma {:induction false} PriceIsMean(obs: seq<Observation>, lo: real, hi: real)
    requires forall o | o in obs && Priced(o) :: lo <= o.price.value <= hi
    ensures PriceAvg(obs).Some? <==> exists o :: o in obs && Priced(o)
    ensures PriceAvg(obs).Some? ==> lo <= PriceAvg(obs).value <= hi
  {
    PriceSums(obs, lo, hi);
    var n := Sum(HasPrice(), obs);
    if n > 0.0 { RatioBounds(Sum(PriceOrZero(), obs), n, lo, hi); }
  }

  /** A better dish is never worth less for its price. */
  lemma BetterIsWorthMore(low: real, high: real, price: real, median: real)
    requires low <= high && price > 0.0 && median > 0.0
    ensures ValueScore(low, Some(price), Some(median)).value <= ValueScore(high, Some(price), Some(median)).value
  {
    var ratio := Clamp(median / price, 0.5, 1.6);
    MulMonotone(low, high, ratio);
    ClampMonotone(low * ratio, high * ratio, 0.0, 1.0);
  }

  /** From half the price of the median to double a bound applies: no more than 1.6 times the sentiment, and no less than half. */
  lemma ValueIsBounded(sentiment: real, price: real, median: real)
    requires 0.0 <= sentiment <= 1.0 && price > 0.0 && median > 0.0
    ensures var v := ValueScore(sentiment, Some(price), Some(median)).value; sentiment / 2.0 <= v <= 1.6 * sentiment
  {
    var ratio := Clamp(median / price, 0.5, 1.6);
    MulMonotone(0.5, ratio, sentiment);
    MulMonotone(ratio, 1.6, sentiment);
    Swap(0.5, sentiment);
  }

  // ---- top attributes ----

  /** How often an attribute is mentioned. */
  function Mentioned(obs: seq<Observation>, a: string): nat { multiset(Flatten(obs))[a] }

  lemma {:induction false} MentionedIs(obs: seq<Observation>, a: string)
    ensures obs == [] ==> Mentioned(obs, a) == 0
    ensures obs != [] ==> Mentioned(obs, a) == multiset(obs[0].attributes)[a] + Mentioned(obs[1..], a)
  {
  }

  /** Mentioned more often, or as often and alphabetically earlier. */
  predicate Outranks(obs: seq<Observation>, a: string, b: string) {
    Mentioned(obs, a) > Mentioned(obs, b) || (Mentioned(obs, a) == Mentioned(obs, b) && LexLess(a, b))
  }

  function AllSorted(obs: seq<Observation>): seq<string> {
    Sort(ByCount(Counts(multiset(Flatten(obs)))), FirstSeen(Flatten(obs)))
  }

  lemma {:induction false} SortedByMention(obs: seq<Observation>)
    ensures forall a :: Mentioned(obs, a) > 0 <==> a in AllSorted(obs)
    ensures forall i, j | 0 <= i < j < |AllSorted(obs)| :: Outranks(obs, AllSorted(obs)[i], AllSorted(obs)[j])
  {
    var attrs, sorted := Flatten(obs), AllSorted(obs);
    var counts, keys := Counts(multiset(attrs)), FirstSeen(attrs);
    ByCountOrders(attrs, keys);
    SortSorted(ByCount(counts), keys);
    SameElements(keys, sorted);
    forall a ensures Mentioned(obs, a) > 0 <==> a in sorted { assert a in multiset(attrs) <==> a in attrs; }
    forall i, j | 0 <= i < j < |sorted| ensures Outranks(obs, sorted[i], sorted[j]) { assert ByCount(counts)(sorted[i], sorted[j]); }
  }

  /**
   * The top attributes are those mentioned most: each at least as often as the next, in alphabetical order
   * where equally often, at most six, and none left out that is mentioned more often than one kept.
   */
  lemma {:induction false} TopAreMostMentioned(obs: seq<Observation>)
    ensures var top := TopAttributes(obs);
            && |top| <= 6
            && (forall a | a in top :: Mentioned(obs, a) > 0)
            && (forall i, j | 0 <= i < j < |top| :: Outranks(obs, top[i], top[j]))
            && (forall a | Mentioned(obs, a) > 0 && a !in top :: |top| == 6 && forall b | b in top :: Outranks(obs, b, a))
  {
    SortedByMention(obs);
    var sorted, top := AllSorted(obs), TopAttributes(obs);
    assert top == if |sorted| > 6 then sorted[..6] else sorted;
    forall a | Mentioned(obs, a) > 0 && a !in top ensures |top| == 6 && forall b | b in top :: Outranks(obs, b, a) {
      LeftOut(obs, sorted, a);
    }
  }

  lemma LeftOut(obs: seq<Observation>, sorted: seq<string>, a: string)
    requires forall i, j | 0 <= i < j < |sorted| :: Outranks(obs, sorted[i], sorted[j])
    requires a in sorted && a !in (if |sorted| > 6 then sorted[..6] else sorted)
    ensures |sorted| > 6 && forall b | b in sorted[..6] :: Outranks(obs, b, a)
  {
    assert sorted == sorted[..6] + sorted[6..];
    var j :| 6 <= j < |sorted| && sorted[j] == a;
    forall b | b in sorted[..6] ensures Outranks(obs, b, a) {
      var i :| 0 <= i < 6 && sorted[i] == b;
    }
  }
}
