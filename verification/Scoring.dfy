/**
 * Scoring one (dish, restaurant) pair from its observations.
 * Arithmetic is over `real`; the final roundings are not modelled.
 */
module Scoring {
  import opened Wrappers
  import opened Reals
  import opened Stats
  import opened Sorting
  import opened Strings

  datatype Source = User | Manual | Reddit | YouTube | Osm | Google

  datatype Observation = Observation(
    sentiment: real,
    confidence: real,
    source: Source,
    engagement: int,
    observedAt: Option<real>,  // days
    price: Option<real>,
    attributes: seq<string>,
    verifiedAuthor: bool,
    byModel: bool)

  datatype Weights = Weights(
    sentiment: real, recency: real, consistency: real, volume: real,
    sourceQuality: real, engagement: real, confidence: real,
    halflifeDays: real, bayesM: real, bayesPrior: real,
    volumeSaturation: real, engagementSaturation: real,
    minMentions: int, minWeight: real)
  {
    predicate Convex() {
      && sentiment >= 0.0 && recency >= 0.0 && consistency >= 0.0 && volume >= 0.0
      && sourceQuality >= 0.0 && engagement >= 0.0 && confidence >= 0.0
      && sentiment + recency + consistency + volume + sourceQuality + engagement + confidence == 1.0
    }
  }

  /** The transcendental functions the code calls; only the facts in `Valid` are used. */
  datatype Numerics = Numerics(halfPower: real -> real, log1p: real -> real, sqrt: real -> real)
  {
    ghost predicate Valid() {
      && (forall x | x >= 0.0 :: 0.0 < halfPower(x) <= 1.0)
      && log1p(0.0) == 0.0
      && (forall x, y | 0.0 <= x < y :: log1p(x) < log1p(y))
      && (forall x | x >= 0.0 :: sqrt(x) >= 0.0 && sqrt(x) * sqrt(x) == x)
    }
  }

  /** What a call of the scorer is given besides the evidence. */
  datatype Setting = Setting(num: Numerics, w: Weights, now: real, prior: Option<real>, cityMedianPrice: Option<real>)
  {
    function PriorValue(): real {
      match prior
      case Some(p) => p
      case None => w.bayesPrior
    }
  }

  datatype Status = Ranked | InsufficientData

  datatype Components = Components(
    sentiment: real, recency: real, consistency: real, volume: real,
    sourceQuality: real, engagement: real, confidence: real)

  datatype DishScore = DishScore(
    status: Status,
    score: Option<real>,
    rawScore: Option<real>,
    components: Components,
    positiveRatio: real,
    mentionCount: nat,
    evidenceWeight: real,
    consistency: real,
    recencyDays: Option<real>,
    bayesianScore: Option<real>,
    priceAvg: Option<real>,
    valueScore: Option<real>,
    topAttributes: seq<string>,
    observedPositivity: real)

  // ---- helpers ----

  function SourceQuality(source: Source, verified: bool): real {
    match source
    case User => if verified then 0.90 else 0.60
    case Manual => 0.85
    case Reddit => 0.75
    case YouTube => 0.60
    case Osm => 0.40
    case Google => 0.5
  }

  function Clamp(x: real, low: real, high: real): real {
    var y := if high < x then high else x;
    if low > y then low else y
  }

  function Unit(x: real): (r: real)
    ensures 0.0 <= r <= 1.0
    ensures 0.0 <= x <= 1.0 ==> r == x
  {
    Clamp(x, 0.0, 1.0)
  }

  function Max(x: real, y: real): real { if x >= y then x else y }

  function TimeDecay(num: Numerics, ageDays: real, halflifeDays: real): real {
    if ageDays <= 0.0 then 1.0
    else if halflifeDays <= 0.0 then 1.0
    else num.halfPower(ageDays / halflifeDays)
  }

  function AgeDays(observedAt: Option<real>, now: real): (age: real)
    ensures age >= 0.0
  {
    match observedAt
    case None => 365.0
    case Some(t) => Max(0.0, now - t)
  }

  function BayesianShrink(observed: real, weight: real, prior: real, m: real): real
    requires weight > 0.0 ==> weight + m != 0.0
  {
    if weight <= 0.0 then prior else (observed * weight + prior * m) / (weight + m)
  }

  // ---- per-observation quantities, and the same as functions to sum ----

  function AgeOf(c: Setting, o: Observation): real { AgeDays(o.observedAt, c.now) }

  function DecayOf(c: Setting, o: Observation): real { TimeDecay(c.num, AgeOf(c, o), c.w.halflifeDays) }

  function QualityOf(o: Observation): real { SourceQuality(o.source, o.verifiedAuthor) }

  function PositivityOf(o: Observation): real { (Clamp(o.sentiment, -1.0, 1.0) + 1.0) / 2.0 }

  function WeightOf(c: Setting, o: Observation): real {
    Times(Times(Max(0.0, Unit(o.confidence)), DecayOf(c, o)), QualityOf(o))
  }

  function GateWeightOf(o: Observation): real { Times(Max(0.0, Unit(o.confidence)), QualityOf(o)) }

  function WeightedPositivityOf(c: Setting, o: Observation): real { Times(PositivityOf(o), WeightOf(c, o)) }

  function DecayedQualityOf(c: Setting, o: Observation): real { Times(QualityOf(o), DecayOf(c, o)) }

  function SquaredDeviationOf(mu: real, o: Observation): real { Square(PositivityOf(o) - mu) }

  function HasPriceOf(o: Observation): bool { o.price.Some? && o.price.value > 0.0 }

  function Age(c: Setting): Observation -> real { (o: Observation) => AgeOf(c, o) }

  function Decay(c: Setting): Observation -> real { (o: Observation) => DecayOf(c, o) }

  function EvidenceWeight(c: Setting): Observation -> real { (o: Observation) => WeightOf(c, o) }

  function GateWeight(): Observation -> real { (o: Observation) => GateWeightOf(o) }

  function Positivity(): Observation -> real { (o: Observation) => PositivityOf(o) }

  function WeightedPositivity(c: Setting): Observation -> real { (o: Observation) => WeightedPositivityOf(c, o) }

  function DecayedQuality(c: Setting): Observation -> real { (o: Observation) => DecayedQualityOf(c, o) }

  function SquaredDeviation(mu: real): Observation -> real { (o: Observation) => SquaredDeviationOf(mu, o) }

  function Confidence(): Observation -> real { (o: Observation) => Unit(o.confidence) }

  function Engagement(): Observation -> real {
    (o: Observation) => if o.engagement > 0 then o.engagement as real else 0.0
  }

  function IsPositive(): Observation -> real { (o: Observation) => if o.sentiment > 0.15 then 1.0 else 0.0 }

  function HasPrice(): Observation -> real { (o: Observation) => if HasPriceOf(o) then 1.0 else 0.0 }

  function PriceOrZero(): Observation -> real { (o: Observation) => if HasPriceOf(o) then o.price.value else 0.0 }

  // ---- aggregates ----

  function ObservedPositivity(c: Setting, obs: seq<Observation>): real
    requires obs != []
  {
    var total := Sum(EvidenceWeight(c), obs);
    if total > 0.0 then Sum(WeightedPositivity(c), obs) / total else Mean(Positivity(), obs)
  }

  function Variance(obs: seq<Observation>): real
    requires obs != []
  {
    Mean(SquaredDeviation(Mean(Positivity(), obs)), obs)
  }

  function Spread(num: Numerics, obs: seq<Observation>): real
    requires obs != []
  {
    num.sqrt(Variance(obs))
  }

  function Consistency(num: Numerics, obs: seq<Observation>): real
    requires obs != []
  {
    if |obs| >= 3 then
      var s := Spread(num, obs) / 0.5;
      Unit(1.0 - (if s < 1.0 then s else 1.0))
    else 0.5
  }

  function MeanQuality(c: Setting, obs: seq<Observation>): real {
    var total := Sum(Decay(c), obs);
    Sum(DecayedQuality(c), obs) / (if total == 0.0 then 1.0 else total)
  }

  /** `log1p(x) / log1p(saturation)`; the code divides by a positive saturation. */
  function Saturating(num: Numerics, x: real, saturation: real): real
    requires num.log1p(saturation) != 0.0
  {
    num.log1p(x) / num.log1p(saturation)
  }

  function MeanConfidence(obs: seq<Observation>): real
    requires obs != []
  {
    Mean(Confidence(), obs)
      * (if (forall o | o in obs :: !o.byModel) then 0.85 else 1.0)
      * (if |obs| >= 3 then 1.0 else 0.8)
  }

  /** The divisions of the scorer are defined. */
  predicate Defined(c: Setting) {
    && c.num.log1p(c.w.volumeSaturation) != 0.0
    && c.num.log1p(c.w.engagementSaturation) != 0.0
    && c.w.bayesM >= 0.0
  }

  function ComponentsOf(c: Setting, obs: seq<Observation>): Components
    requires obs != [] && Defined(c)
  {
    Components(
      Unit(BayesianShrink(ObservedPositivity(c, obs), Sum(EvidenceWeight(c), obs), c.PriorValue(), c.w.bayesM)),
      Unit(TimeDecay(c.num, Least(Age(c), obs), c.w.halflifeDays)),
      Consistency(c.num, obs),
      Unit(Saturating(c.num, |obs| as real, c.w.volumeSaturation)),
      Unit(MeanQuality(c, obs)),
      Unit(Saturating(c.num, Sum(Engagement(), obs), c.w.engagementSaturation)),
      Unit(MeanConfidence(obs)))
  }

  function WeightedTotal(w: Weights, x: Components): real {
    Times(x.sentiment, w.sentiment) + Times(x.recency, w.recency) + Times(x.consistency, w.consistency)
    + Times(x.volume, w.volume) + Times(x.sourceQuality, w.sourceQuality)
    + Times(x.engagement, w.engagement) + Times(x.confidence, w.confidence)
  }

  function PositiveRatio(obs: seq<Observation>): real {
    if obs == [] then 0.0 else Sum(IsPositive(), obs) / (|obs| as real)
  }

  function PriceAvg(obs: seq<Observation>): Option<real> {
    var n := Sum(HasPrice(), obs);
    if n == 0.0 then None else Some(Sum(PriceOrZero(), obs) / n)
  }

  function ValueScore(sentiment: real, priceAvg: Option<real>, cityMedian: Option<real>): Option<real> {
    if priceAvg.None? || priceAvg.value == 0.0 || cityMedian.None? || cityMedian.value <= 0.0 then None
    else Some(Unit(sentiment * Clamp(cityMedian.value / priceAvg.value, 0.5, 1.6)))
  }

  function StatusOf(w: Weights, obs: seq<Observation>): Status {
    if obs == [] || |obs| < w.minMentions || Sum(GateWeight(), obs) < w.minWeight
    then InsufficientData else Ranked
  }

  function ComputeDishScore(c: Setting, obs: seq<Observation>): DishScore
    requires Defined(c)
  {
    if obs == [] then
      DishScore(InsufficientData, None, None, Components(0.0, 0.0, 0.0, 0.0, 0.0, 0.0, 0.0),
                0.0, 0, 0.0, 0.0, None, None, None, None, [], 0.0)
    else
      Report(c.w, c.cityMedianPrice, StatusOf(c.w, obs), ComponentsOf(c, obs), PositiveRatio(obs), |obs|, Sum(EvidenceWeight(c), obs),
             Least(Age(c), obs), PriceAvg(obs), TopAttributes(obs), ObservedPositivity(c, obs))
  }

  function Report(w: Weights, cityMedian: Option<real>, status: Status, x: Components, positiveRatio: real, n: nat, weight: real, minAge: real,
                  price: Option<real>, top: seq<string>, observed: real): DishScore
  {
    var raw := Unit(WeightedTotal(w, x));
    DishScore(status, if status.Ranked? then Some(raw * 100.0) else None, Some(raw), x,
              positiveRatio, n, weight, x.consistency, Some(minAge), Some(x.sentiment), price,
              ValueScore(x.sentiment, price, cityMedian), top, observed)
  }

  // ---- top attributes ----

  function Flatten(obs: seq<Observation>): seq<string> {
    if obs == [] then [] else obs[0].attributes + Flatten(obs[1..])
  }

  /** The `counts` dictionary. */
  function Counts(attrs: multiset<string>): map<string, nat> {
    map a | a in attrs :: attrs[a]
  }

  /** More frequent first, then alphabetical. */
  function ByCount(counts: map<string, nat>): (string, string) -> bool {
    (a: string, b: string) =>
      a in counts && b in counts && (counts[a] > counts[b] || (counts[a] == counts[b] && LexLess(a, b)))
  }

  /** The keys of the dictionary in insertion order. */
  function FirstSeen(attrs: seq<string>): (r: seq<string>)
    ensures forall a :: a in r <==> a in attrs
    ensures Distinct(r)
  {
    if attrs == [] then [] else
      var last, before := attrs[|attrs| - 1], attrs[..|attrs| - 1];
      assert attrs == before + [last];
      if last in before then FirstSeen(before) else FirstSeen(before) + [last]
  }

  function TopAttributes(obs: seq<Observation>): seq<string> {
    var attrs := Flatten(obs);
    Foremost(Counts(multiset(attrs)), FirstSeen(attrs))
  }

  /** Count one more attribute; `keys` is the dictionary's insertion order. */
  method Tally(attribute: string, counts: map<string, nat>, keys: seq<string>, ghost seen: seq<string>)
    returns (counts': map<string, nat>, keys': seq<string>)
    requires counts == Counts(multiset(seen)) && keys == FirstSeen(seen)
    ensures counts' == Counts(multiset(seen + [attribute])) && keys' == FirstSeen(seen + [attribute])
  {
    assert (seen + [attribute])[..|seen|] == seen;
    assert multiset(seen + [attribute]) == multiset(seen) + multiset{attribute};
    CountsNext(multiset(seen), attribute);
    keys' := if attribute in counts then keys else keys + [attribute];
    counts' := counts[attribute := (if attribute in counts then counts[attribute] else 0) + 1];
  }

  lemma CountsNext(attrs: multiset<string>, a: string)
    ensures Counts(attrs + multiset{a}) == Counts(attrs)[a := (if a in Counts(attrs) then Counts(attrs)[a] else 0) + 1]
  {
  }

  /** The inner loop: count the attributes of one observation. */
  method TallyAll(attributes: seq<string>, counts: map<string, nat>, keys: seq<string>, ghost seen: seq<string>)
    returns (counts': map<string, nat>, keys': seq<string>)
    requires counts == Counts(multiset(seen)) && keys == FirstSeen(seen)
    ensures counts' == Counts(multiset(seen + attributes)) && keys' == FirstSeen(seen + attributes)
  {
    counts', keys' := counts, keys;
    assert seen + attributes[..0] == seen;
    for j := 0 to |attributes|
      invariant counts' == Counts(multiset(seen + attributes[..j])) && keys' == FirstSeen(seen + attributes[..j])
    {
      OneMoreAttribute(seen, attributes, j);
      counts', keys' := Tally(attributes[j], counts', keys', seen + attributes[..j]);
    }
    assert attributes[..|attributes|] == attributes;
  }

  method CountAttributes(observations: seq<Observation>) returns (top: seq<string>)
    ensures top == TopAttributes(observations)
  {
    var counts: map<string, nat>, keys: seq<string> := map[], [];
    for i := 0 to |observations|
      invariant counts == Counts(multiset(Flatten(observations[..i]))) && keys == FirstSeen(Flatten(observations[..i]))
    {
      FlattenNext(observations, i);
      counts, keys := TallyAll(observations[i].attributes, counts, keys, Flatten(observations[..i]));
    }
    assert observations[..|observations|] == observations;
    top := Foremost(counts, keys);
  }

  function Foremost(counts: map<string, nat>, keys: seq<string>): seq<string> {
    var sorted := Sort(ByCount(counts), keys);
    if |sorted| > 6 then sorted[..6] else sorted
  }

  lemma OneMoreAttribute(before: seq<string>, attributes: seq<string>, j: nat)
    requires j < |attributes|
    ensures before + attributes[..j] + [attributes[j]] == before + attributes[..j + 1]
  {
  }

  lemma FlattenNext(obs: seq<Observation>, i: nat)
    requires i < |obs|
    ensures Flatten(obs[..i + 1]) == Flatten(obs[..i]) + obs[i].attributes
  {
    assert obs[..i + 1] == obs[..i] + [obs[i]];
    FlattenAppend(obs[..i], [obs[i]]);
    assert [obs[i]][1..] == [];
    assert Flatten([obs[i]]) == obs[i].attributes + [];
  }

  // ---- the score is a function of the evidence multiset ----

  lemma {:induction false} FlattenAppend(s: seq<Observation>, t: seq<Observation>)
    ensures Flatten(s + t) == Flatten(s) + Flatten(t)
  {
    if s == [] {
      assert s + t == t;
    } else {
      assert (s + t)[1..] == s[1..] + t;
      FlattenAppend(s[1..], t);
    }
  }

  lemma {:induction false} FlattenPermutation(s: seq<Observation>, t: seq<Observation>)
    requires multiset(s) == multiset(t)
    ensures multiset(Flatten(s)) == multiset(Flatten(t))
  {
    if s == [] {
      assert |multiset(t)| == |t|;
    } else {
      assert s[0] in multiset(t);
      var i :| 0 <= i < |t| && t[i] == s[0];
      RemoveAt(s, t, i);
      FlattenPermutation(s[1..], t[..i] + t[i + 1..]);
      FlattenWithout(t, i);
      FlattenWithout(s, 0);
      assert s[..0] + s[1..] == s[1..];
    }
  }

  lemma {:induction false} FlattenWithout(t: seq<Observation>, i: nat)
    requires i < |t|
    ensures multiset(Flatten(t)) == multiset(t[i].attributes) + multiset(Flatten(t[..i] + t[i + 1..]))
  {
    SplitAround(t, i);
    FlattenMiddle(t[..i], t[i], t[i + 1..]);
  }

  lemma SplitAround<T>(t: seq<T>, i: nat)
    requires i < |t|
    ensures t == t[..i] + ([t[i]] + t[i + 1..])
  {
  }

  lemma FlattenMiddle(a: seq<Observation>, o: Observation, b: seq<Observation>)
    ensures multiset(Flatten(a + ([o] + b))) == multiset(o.attributes) + multiset(Flatten(a + b))
  {
    FlattenAppend(a, [o] + b);
    FlattenHead(o, b);
    FlattenAppend(a, b);
    TakeMiddle(Flatten(a), o.attributes, Flatten(b));
  }

  lemma FlattenHead(o: Observation, rest: seq<Observation>)
    ensures Flatten([o] + rest) == o.attributes + Flatten(rest)
  {
    assert ([o] + rest)[1..] == rest;
  }

  lemma TakeMiddle(x: seq<string>, y: seq<string>, z: seq<string>)
    ensures multiset(x + (y + z)) == multiset(y) + multiset(x + z)
  {
  }

  lemma ByCountOrders(attrs: seq<string>, keys: seq<string>)
    requires forall a | a in keys :: a in attrs
    ensures StrictOrderOn(ByCount(Counts(multiset(attrs))), keys)
  {
    var counts := Counts(multiset(attrs));
    var less := ByCount(counts);
    forall x | x in keys ensures !less(x, x) { LexIrreflexive(x); }
    forall x, y | x in keys && y in keys && x != y ensures less(x, y) || less(y, x) { LexTotal(x, y); }
    forall x, y, z | x in keys && y in keys && z in keys && less(x, y) && less(y, z) ensures less(x, z) {
      if counts[x] == counts[y] == counts[z] { LexTransitive(x, y, z); }
    }
  }

  lemma TopAttributesPermutation(s: seq<Observation>, t: seq<Observation>)
    requires multiset(s) == multiset(t)
    ensures TopAttributes(s) == TopAttributes(t)
  {
    var a, b := Flatten(s), Flatten(t);
    FlattenPermutation(s, t);
    SameElements(a, b);
    SameKeys(FirstSeen(a), FirstSeen(b));
    ByCountOrders(a, FirstSeen(a));
    SortPermutation(ByCount(Counts(multiset(a))), FirstSeen(a), FirstSeen(b));
  }

  lemma SameKeys(s: seq<string>, t: seq<string>)
    requires Distinct(s) && Distinct(t) && forall a :: a in s <==> a in t
    ensures multiset(s) == multiset(t)
  {
    DistinctIsMultiplicity(s);
    DistinctIsMultiplicity(t);
  }

  lemma LeastPermutation(f: Observation -> real, s: seq<Observation>, t: seq<Observation>)
    requires s != [] && multiset(s) == multiset(t)
    ensures t != [] && Least(f, s) == Least(f, t)
  {
    SameElements(s, t);
  }

  ghost predicate Rearranged(s: seq<Observation>, t: seq<Observation>) {
    s != [] && t != [] && |s| == |t| && multiset(s) == multiset(t)
  }

  lemma ObservedPermutation(c: Setting, s: seq<Observation>, t: seq<Observation>)
    requires Rearranged(s, t)
    ensures Sum(EvidenceWeight(c), s) == Sum(EvidenceWeight(c), t)
    ensures ObservedPositivity(c, s) == ObservedPositivity(c, t)
  {
    SumPermutation(EvidenceWeight(c), s, t);
    SumPermutation(WeightedPositivity(c), s, t);
    SumPermutation(Positivity(), s, t);
  }

  lemma ConsistencyPermutation(num: Numerics, s: seq<Observation>, t: seq<Observation>)
    requires Rearranged(s, t)
    ensures Consistency(num, s) == Consistency(num, t)
  {
    SumPermutation(Positivity(), s, t);
    SumPermutation(SquaredDeviation(Mean(Positivity(), s)), s, t);
  }

  lemma ConfidencePermutation(s: seq<Observation>, t: seq<Observation>)
    requires Rearranged(s, t)
    ensures MeanConfidence(s) == MeanConfidence(t)
  {
    SumPermutation(Confidence(), s, t);
    SameElements(s, t);
  }

  lemma ComponentsPermutation(c: Setting, s: seq<Observation>, t: seq<Observation>)
    requires Defined(c) && Rearranged(s, t)
    ensures ComponentsOf(c, s) == ComponentsOf(c, t)
  {
    ObservedPermutation(c, s, t);
    ConsistencyPermutation(c.num, s, t);
    ConfidencePermutation(s, t);
    LeastPermutation(Age(c), s, t);
    SumPermutation(Decay(c), s, t);
    SumPermutation(DecayedQuality(c), s, t);
    SumPermutation(Engagement(), s, t);
  }

  lemma PairFactsPermutation(w: Weights, s: seq<Observation>, t: seq<Observation>)
    requires Rearranged(s, t)
    ensures PositiveRatio(s) == PositiveRatio(t) && PriceAvg(s) == PriceAvg(t) && StatusOf(w, s) == StatusOf(w, t)
  {
    SumPermutation(IsPositive(), s, t);
    SumPermutation(HasPrice(), s, t);
    SumPermutation(PriceOrZero(), s, t);
    SumPermutation(GateWeight(), s, t);
  }

  /** No query order can change a score: permuted observations score the same. */
  lemma ScorePermutation(c: Setting, s: seq<Observation>, t: seq<Observation>)
    requires Defined(c) && multiset(s) == multiset(t)
    ensures ComputeDishScore(c, s) == ComputeDishScore(c, t)
  {
    assert |multiset(s)| == |multiset(t)|;
    if s != [] {
      ComponentsPermutation(c, s, t);
      ObservedPermutation(c, s, t);
      PairFactsPermutation(c.w, s, t);
      LeastPermutation(Age(c), s, t);
      TopAttributesPermutation(s, t);
    }
  }
}
