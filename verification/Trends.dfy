/** Trend detection: a recent window against the historical window before it. */
module Trends {
  import opened Wrappers
  import opened Reals
  import opened Stats
  import opened Scoring

  datatype TrendConfig = TrendConfig(
    recentDays: int, historicalDays: int, deltaThreshold: real,
    minObservations: int, volumeSurgeRatio: real, volumeSurgeMinRecent: int)

  datatype Direction = Rising | Stable | Declining

  datatype Reason = Insufficient | SentimentUp | SentimentDown | VolumeSurge | Flat

  datatype Trend = Trend(
    direction: Option<Direction>, delta: Option<real>,
    recentSentiment: Option<real>, historicalSentiment: Option<real>,
    recentCount: nat, historicalCount: nat, significant: bool, reason: Reason)

  predicate InRecent(cfg: TrendConfig, now: real, o: Observation) {
    o.observedAt.Some? && o.observedAt.value <= now && o.observedAt.value >= now - cfg.recentDays as real
  }

  predicate InHistorical(cfg: TrendConfig, now: real, o: Observation) {
    && o.observedAt.Some? && o.observedAt.value <= now
    && !InRecent(cfg, now, o) && o.observedAt.value >= now - cfg.historicalDays as real
  }

  function Recent(cfg: TrendConfig, now: real, obs: seq<Observation>): seq<Observation> {
    if obs == [] then [] else
      (if InRecent(cfg, now, obs[0]) then [obs[0]] else []) + Recent(cfg, now, obs[1..])
  }

  function Historical(cfg: TrendConfig, now: real, obs: seq<Observation>): seq<Observation> {
    if obs == [] then [] else
      (if InHistorical(cfg, now, obs[0]) then [obs[0]] else []) + Historical(cfg, now, obs[1..])
  }

  function MeanPositivity(obs: seq<Observation>): Option<real> {
    if obs == [] then None else Some(Mean(Positivity(), obs))
  }

  function AtLeastOne(n: int): (r: int)
    ensures r >= 1
  {
    if n < 1 then 1 else n
  }

  /** Per-day rates, because the windows differ in length. */
  function VolumeRatio(cfg: TrendConfig, recent: nat, historical: nat): real {
    var recentRate := recent as real / AtLeastOne(cfg.recentDays) as real;
    var historicalRate := historical as real / AtLeastOne(cfg.historicalDays - cfg.recentDays) as real;
    if historicalRate > 0.0 then recentRate / historicalRate else 0.0
  }

  /** The verdict for two windows that both passed the gate. */
  function Verdict(cfg: TrendConfig, delta: real, recent: nat, historical: nat): (Direction, bool, Reason) {
    if delta >= cfg.deltaThreshold then (Rising, true, SentimentUp)
    else if delta <= -cfg.deltaThreshold then (Declining, true, SentimentDown)
    else if VolumeRatio(cfg, recent, historical) >= cfg.volumeSurgeRatio && recent >= cfg.volumeSurgeMinRecent then
      (Rising, false, VolumeSurge)
    else (Stable, false, Flat)
  }

  predicate Gated(cfg: TrendConfig, recent: seq<Observation>, historical: seq<Observation>) {
    |recent| < cfg.minObservations || |historical| < cfg.minObservations
  }

  /** With a minimum of zero or less an empty window passes the gate, and the original fails on its mean. */
  predicate Answers(cfg: TrendConfig, recent: seq<Observation>, historical: seq<Observation>) {
    Gated(cfg, recent, historical) || (recent != [] && historical != [])
  }

  lemma AnswersIff(cfg: TrendConfig, recent: seq<Observation>, historical: seq<Observation>)
    ensures Answers(cfg, recent, historical) <==> cfg.minObservations > 0 || (recent != [] && historical != [])
  {
  }

  function Compare(cfg: TrendConfig, recent: seq<Observation>, historical: seq<Observation>): Trend
    requires Answers(cfg, recent, historical)
  {
    var rp, hp := MeanPositivity(recent), MeanPositivity(historical);
    if Gated(cfg, recent, historical) then
      Trend(None, None, rp, hp, |recent|, |historical|, false, Insufficient)
    else
      Judge(cfg, rp.value, hp.value, |recent|, |historical|)
  }

  function Judge(cfg: TrendConfig, recentP: real, historicalP: real, recent: nat, historical: nat): Trend {
    var delta := recentP - historicalP;
    var (direction, significant, reason) := Verdict(cfg, delta, recent, historical);
    Trend(Some(direction), Some(delta), Some(recentP), Some(historicalP), recent, historical, significant, reason)
  }

  predicate Detects(cfg: TrendConfig, now: real, obs: seq<Observation>) {
    Answers(cfg, Recent(cfg, now, obs), Historical(cfg, now, obs))
  }

  function Detect(cfg: TrendConfig, now: real, obs: seq<Observation>): Trend
    requires Detects(cfg, now, obs)
  {
    Compare(cfg, Recent(cfg, now, obs), Historical(cfg, now, obs))
  }

  lemma {:induction false} RecentAppend(cfg: TrendConfig, now: real, obs: seq<Observation>, o: Observation)
    ensures Recent(cfg, now, obs + [o]) == Recent(cfg, now, obs) + (if InRecent(cfg, now, o) then [o] else [])
  {
    if obs == [] {
      assert obs + [o] == [o];
    } else {
      RecentAppend(cfg, now, obs[1..], o);
      assert (obs + [o])[1..] == obs[1..] + [o];
      var head := if InRecent(cfg, now, obs[0]) then [obs[0]] else [];
      var last := if InRecent(cfg, now, o) then [o] else [];
      var middle := Recent(cfg, now, obs[1..]);
      assert head + (middle + last) == (head + middle) + last;
    }
  }

  lemma {:induction false} HistoricalAppend(cfg: TrendConfig, now: real, obs: seq<Observation>, o: Observation)
    ensures Historical(cfg, now, obs + [o]) == Historical(cfg, now, obs) + (if InHistorical(cfg, now, o) then [o] else [])
  {
    if obs == [] {
      assert obs + [o] == [o];
    } else {
      HistoricalAppend(cfg, now, obs[1..], o);
      assert (obs + [o])[1..] == obs[1..] + [o];
      var head := if InHistorical(cfg, now, obs[0]) then [obs[0]] else [];
      var last := if InHistorical(cfg, now, o) then [o] else [];
      var middle := Historical(cfg, now, obs[1..]);
      assert head + (middle + last) == (head + middle) + last;
    }
  }

  /** No result stands for the failure on an empty window. */
  method DetectTrend(cfg: TrendConfig, now: real, observations: seq<Observation>) returns (r: Option<Trend>)
    ensures r == if Detects(cfg, now, observations) then Some(Detect(cfg, now, observations)) else None
    ensures r.None? <==>
              cfg.minObservations <= 0 && (Recent(cfg, now, observations) == [] || Historical(cfg, now, observations) == [])
  {
    var recent, historical: seq<Observation> := [], [];
    for i := 0 to |observations|
      invariant recent == Recent(cfg, now, observations[..i])
      invariant historical == Historical(cfg, now, observations[..i])
    {
      var o := observations[i];
      RecentAppend(cfg, now, observations[..i], o);
      HistoricalAppend(cfg, now, observations[..i], o);
      assert observations[..i + 1] == observations[..i] + [o];
      if o.observedAt.None? { continue; }
      var ts := o.observedAt.value;
      if ts > now { continue; }
      if ts >= now - cfg.recentDays as real {
        recent := recent + [o];
      } else if ts >= now - cfg.historicalDays as real {
        historical := historical + [o];
      }
    }
    assert observations[..|observations|] == observations;
    AnswersIff(cfg, recent, historical);
    if !Gated(cfg, recent, historical) && (recent == [] || historical == []) {
      return None;
    }
    r := Some(Compare(cfg, recent, historical));
  }

  // ---- the gate ----

  /** Which observations are in which window, by their dates. */
  lemma {:induction false} WindowMembers(cfg: TrendConfig, now: real, obs: seq<Observation>)
    ensures forall o :: o in Recent(cfg, now, obs)
                        <==> o in obs && o.observedAt.Some? && now - cfg.recentDays as real <= o.observedAt.value <= now
    ensures forall o :: o in Historical(cfg, now, obs)
                        <==> o in obs && o.observedAt.Some? && now - cfg.historicalDays as real <= o.observedAt.value <= now
                             && o.observedAt.value < now - cfg.recentDays as real
  {
    if obs != [] {
      WindowMembers(cfg, now, obs[1..]);
    }
  }

  /** A direction is claimed exactly when both windows, which share no observation, reach the minimum. */
  lemma DirectionIffBothWindows(cfg: TrendConfig, now: real, obs: seq<Observation>)
    requires Detects(cfg, now, obs)
    ensures Detect(cfg, now, obs).direction.Some?
            <==> |Recent(cfg, now, obs)| >= cfg.minObservations && |Historical(cfg, now, obs)| >= cfg.minObservations
    ensures forall o :: !(o in Recent(cfg, now, obs) && o in Historical(cfg, now, obs))
  {
    WindowMembers(cfg, now, obs);
  }

  // ---- the windows, by their dates ----

  /** Observations dated from `days` days ago to now. */
  function Dated(now: real, days: int): Observation -> bool {
    (o: Observation) => o.observedAt.Some? && now - days as real <= o.observedAt.value <= now
  }

  /** The longer of the two look-backs. */
  function Horizon(cfg: TrendConfig): int { if cfg.recentDays > cfg.historicalDays then cfg.recentDays else cfg.historicalDays }

  function OnlyDated(now: real, days: int, obs: seq<Observation>): seq<Observation> {
    if obs == [] then [] else (if Dated(now, days)(obs[0]) then [obs[0]] else []) + OnlyDated(now, days, obs[1..])
  }

  lemma {:induction false} UnplacedLeavesWindows(cfg: TrendConfig, now: real, obs: seq<Observation>)
    ensures Recent(cfg, now, OnlyDated(now, Horizon(cfg), obs)) == Recent(cfg, now, obs)
    ensures Historical(cfg, now, OnlyDated(now, Horizon(cfg), obs)) == Historical(cfg, now, obs)
  {
    if obs != [] {
      UnplacedLeavesWindows(cfg, now, obs[1..]);
      var rest := OnlyDated(now, Horizon(cfg), obs[1..]);
      if Dated(now, Horizon(cfg))(obs[0]) {
        assert OnlyDated(now, Horizon(cfg), obs) == [obs[0]] + rest;
        assert ([obs[0]] + rest)[1..] == rest;
      } else {
        assert OnlyDated(now, Horizon(cfg), obs) == rest;
      }
    }
  }

  /** Undated, future and too-old observations can be dropped without changing anything. */
  lemma UnplacedIrrelevant(cfg: TrendConfig, now: real, obs: seq<Observation>)
    ensures Detects(cfg, now, OnlyDated(now, Horizon(cfg), obs)) <==> Detects(cfg, now, obs)
    ensures Detects(cfg, now, obs) ==> Detect(cfg, now, OnlyDated(now, Horizon(cfg), obs)) == Detect(cfg, now, obs)
  {
    UnplacedLeavesWindows(cfg, now, obs);
  }

  lemma {:induction false} WindowSizes(cfg: TrendConfig, now: real, obs: seq<Observation>)
    ensures |Recent(cfg, now, obs)| == Count(Dated(now, cfg.recentDays), obs)
    ensures |Recent(cfg, now, obs)| + |Historical(cfg, now, obs)| == Count(Dated(now, Horizon(cfg)), obs)
  {
    if obs != [] { WindowSizes(cfg, now, obs[1..]); }
  }

  /** The two counts are numbers of dates: those of the last recent days, and with the others those of the whole look-back. */
  lemma CountsAreDates(cfg: TrendConfig, now: real, obs: seq<Observation>)
    requires Detects(cfg, now, obs)
    ensures Detect(cfg, now, obs).recentCount == Count(Dated(now, cfg.recentDays), obs)
    ensures Detect(cfg, now, obs).recentCount + Detect(cfg, now, obs).historicalCount == Count(Dated(now, Horizon(cfg)), obs)
  {
    WindowSizes(cfg, now, obs);
  }

  // ---- which way a trend points ----

  /** No observation of the one list is worse than any of the other. */
  ghost predicate NoWorse(recent: seq<Observation>, historical: seq<Observation>) {
    forall o, p | o in recent && p in historical :: o.sentiment >= p.sentiment
  }

  function Sentiment(): Observation -> real { (o: Observation) => o.sentiment }

  lemma NoWorseMean(recent: seq<Observation>, historical: seq<Observation>)
    requires recent != [] && historical != [] && NoWorse(recent, historical)
    ensures Mean(Positivity(), recent) >= Mean(Positivity(), historical)
  {
    var x := Least(Sentiment(), recent);
    var p :| p in recent && p.sentiment == x;
    MeanBounds(Positivity(), PositivityOf(p), 1.0, recent);
    MeanBounds(Positivity(), 0.0, PositivityOf(p), historical);
  }

  /**
   * If no recent observation is worse than a historical one the difference is not negative, and the
   * trend is not a decline by sentiment; the other way round it is not positive.
   */
  lemma TrendFollowsSentiment(cfg: TrendConfig, now: real, obs: seq<Observation>)
    requires Detects(cfg, now, obs) && Detect(cfg, now, obs).direction.Some?
    requires cfg.deltaThreshold > 0.0
    ensures var t := Detect(cfg, now, obs);
            && (NoWorse(Recent(cfg, now, obs), Historical(cfg, now, obs)) ==> t.delta.value >= 0.0 && t.direction != Some(Declining))
            && (NoWorse(Historical(cfg, now, obs), Recent(cfg, now, obs)) ==>
                  t.delta.value <= 0.0 && (t.direction == Some(Rising) ==> t.reason == VolumeSurge && !t.significant))
  {
    var recent, historical := Recent(cfg, now, obs), Historical(cfg, now, obs);
    if NoWorse(recent, historical) { NoWorseMean(recent, historical); }
    if NoWorse(historical, recent) { NoWorseMean(historical, recent); }
  }

  /** The two sentiments are there exactly for windows that are not empty, and the delta is their difference. */
  lemma SentimentsAndDelta(cfg: TrendConfig, now: real, obs: seq<Observation>)
    requires Detects(cfg, now, obs)
    ensures var t := Detect(cfg, now, obs);
            && (t.recentSentiment.Some? <==> t.recentCount > 0) && (t.historicalSentiment.Some? <==> t.historicalCount > 0)
            && (t.recentSentiment.Some? ==> 0.0 <= t.recentSentiment.value <= 1.0)
            && (t.historicalSentiment.Some? ==> 0.0 <= t.historicalSentiment.value <= 1.0)
            && (t.delta.Some? <==> t.direction.Some?)
            && (t.delta.Some? ==> t.recentSentiment.Some? && t.historicalSentiment.Some?
                                  && t.delta.value == t.recentSentiment.value - t.historicalSentiment.value)
  {
    var recent, historical := Recent(cfg, now, obs), Historical(cfg, now, obs);
    if recent != [] { MeanBounds(Positivity(), 0.0, 1.0, recent); }
    if historical != [] { MeanBounds(Positivity(), 0.0, 1.0, historical); }
  }

  /** What the verdict goes by: sentiment beyond the threshold first, then a surge in volume, which is never significant. */
  lemma ReasonsAre(cfg: TrendConfig, now: real, obs: seq<Observation>)
    requires Detects(cfg, now, obs) && cfg.deltaThreshold > 0.0
    ensures var t := Detect(cfg, now, obs);
            && (t.reason == Insufficient <==> t.delta.None?)
            && (t.reason == SentimentUp <==> t.delta.Some? && t.delta.value >= cfg.deltaThreshold)
            && (t.reason == SentimentDown <==> t.delta.Some? && t.delta.value <= -cfg.deltaThreshold)
            && (t.reason == VolumeSurge <==>
                  t.delta.Some? && -cfg.deltaThreshold < t.delta.value < cfg.deltaThreshold && t.recentCount >= cfg.volumeSurgeMinRecent
                  && VolumeRatio(cfg, t.recentCount, t.historicalCount) >= cfg.volumeSurgeRatio)
            && (t.direction == Some(Rising) <==> t.reason == SentimentUp || t.reason == VolumeSurge)
            && (t.direction == Some(Declining) <==> t.reason == SentimentDown)
            && (t.direction == Some(Stable) <==> t.reason == Flat)
            && (t.significant <==> t.reason == SentimentUp || t.reason == SentimentDown)
  {
  }

  /** From full blame to full praise the trend rises by one, and the other way it falls by one. */
  lemma FullTurn(cfg: TrendConfig, now: real, obs: seq<Observation>)
    requires Detects(cfg, now, obs) && Detect(cfg, now, obs).direction.Some? && 0.0 < cfg.deltaThreshold <= 1.0
    ensures var t, recent, historical := Detect(cfg, now, obs), Recent(cfg, now, obs), Historical(cfg, now, obs);
            && ((forall o | o in recent :: o.sentiment >= 1.0) && (forall o | o in historical :: o.sentiment <= -1.0) ==>
                  t.delta == Some(1.0) && t.direction == Some(Rising) && t.significant && t.reason == SentimentUp)
            && ((forall o | o in recent :: o.sentiment <= -1.0) && (forall o | o in historical :: o.sentiment >= 1.0) ==>
                  t.delta == Some(-1.0) && t.direction == Some(Declining) && t.significant && t.reason == SentimentDown)
  {
    var recent, historical := Recent(cfg, now, obs), Historical(cfg, now, obs);
    Extreme(recent);
    Extreme(historical);
  }

  lemma Extreme(w: seq<Observation>)
    requires w != []
    ensures (forall o | o in w :: o.sentiment >= 1.0) ==> Mean(Positivity(), w) == 1.0
    ensures (forall o | o in w :: o.sentiment <= -1.0) ==> Mean(Positivity(), w) == 0.0
  {
    if forall o | o in w :: o.sentiment >= 1.0 { MeanBounds(Positivity(), 1.0, 1.0, w); }
    if forall o | o in w :: o.sentiment <= -1.0 { MeanBounds(Positivity(), 0.0, 0.0, w); }
  }

  // ---- duality ----

  function Negate(o: Observation): Observation { o.(sentiment := -o.sentiment) }

  function NegateAll(obs: seq<Observation>): (r: seq<Observation>)
    ensures |r| == |obs|
  {
    if obs == [] then [] else [Negate(obs[0])] + NegateAll(obs[1..])
  }

  lemma {:induction false} NegateWindows(cfg: TrendConfig, now: real, obs: seq<Observation>)
    ensures Recent(cfg, now, NegateAll(obs)) == NegateAll(Recent(cfg, now, obs))
    ensures Historical(cfg, now, NegateAll(obs)) == NegateAll(Historical(cfg, now, obs))
  {
    if obs != [] {
      NegateWindows(cfg, now, obs[1..]);
      var o, rest := obs[0], obs[1..];
      assert NegateAll(obs)[1..] == NegateAll(rest);
      NegateHead(o, Recent(cfg, now, rest));
      NegateHead(o, Historical(cfg, now, rest));
    }
  }

  lemma NegateHead(o: Observation, rest: seq<Observation>)
    ensures NegateAll([o] + rest) == [Negate(o)] + NegateAll(rest)
    ensures [] + rest == rest && [] + NegateAll(rest) == NegateAll(rest)
  {
    assert ([o] + rest)[1..] == rest;
  }

  lemma {:induction false} NegatedSum(obs: seq<Observation>)
    ensures Sum(Positivity(), NegateAll(obs)) == |obs| as real - Sum(Positivity(), obs)
  {
    if obs != [] {
      NegatedSum(obs[1..]);
      assert NegateAll(obs)[1..] == NegateAll(obs[1..]);
      assert PositivityOf(Negate(obs[0])) == 1.0 - PositivityOf(obs[0]);
    }
  }

  lemma Complement(sum: real, n: real)
    requires n > 0.0
    ensures (n - sum) / n == 1.0 - sum / n
  {
    var q, r := sum / n, (n - sum) / n;
    assert q * n == sum && r * n == n - sum;
    assert (1.0 - q) * n == n - q * n;
    MulOrder(r, 1.0 - q, n);
    MulOrder(1.0 - q, r, n);
  }

  lemma NegatedMean(obs: seq<Observation>)
    requires obs != []
    ensures Mean(Positivity(), NegateAll(obs)) == 1.0 - Mean(Positivity(), obs)
  {
    NegatedSum(obs);
    Complement(Sum(Positivity(), obs), |obs| as real);
  }

  function SwapReason(r: Reason): Reason {
    match r
    case SentimentUp => SentimentDown
    case SentimentDown => SentimentUp
    case _ => r
  }

  function SwapDirection(r: Reason, d: Direction): Direction {
    match r
    case SentimentUp => Declining
    case SentimentDown => Rising
    case _ => d
  }

  /** The verdict on the negated reviews is the mirror image of the verdict on the reviews. */
  predicate Mirrored(t: Trend, u: Trend) {
    && u.recentCount == t.recentCount && u.historicalCount == t.historicalCount
    && u.significant == t.significant
    && u.reason == SwapReason(t.reason)
    && (t.direction.None? <==> u.direction.None?)
    && (t.direction.Some? ==> u.direction == Some(SwapDirection(t.reason, t.direction.value)))
    && (t.delta.None? <==> u.delta.None?)
    && (t.delta.Some? ==> u.delta == Some(-t.delta.value))
  }

  lemma VerdictMirror(cfg: TrendConfig, delta: real, recent: nat, historical: nat)
    ensures var (d, sig, why) := Verdict(cfg, delta, recent, historical);
            var (d', sig', why') := Verdict(cfg, -delta, recent, historical);
            (sig' == sig && why' == SwapReason(why) && d' == SwapDirection(why, d))
            <==> (cfg.deltaThreshold > 0.0 || delta < cfg.deltaThreshold || delta > -cfg.deltaThreshold)
  {
  }

  lemma JudgeMirror(cfg: TrendConfig, rp: real, hp: real, recent: nat, historical: nat)
    ensures var t := Judge(cfg, rp, hp, recent, historical);
            && t.direction.Some? && t.delta == Some(rp - hp)
            && (Mirrored(t, Judge(cfg, 1.0 - rp, 1.0 - hp, recent, historical)) <==>
                (cfg.deltaThreshold > 0.0 || rp - hp < cfg.deltaThreshold || rp - hp > -cfg.deltaThreshold))
  {
    VerdictMirror(cfg, rp - hp, recent, historical);
    assert (1.0 - rp) - (1.0 - hp) == -(rp - hp);
  }

  /** The two windows tell them apart: by the gate, by the threshold, or by a difference of means that clears one bar only. */
  predicate TellsApart(cfg: TrendConfig, recent: seq<Observation>, historical: seq<Observation>)
    requires Answers(cfg, recent, historical)
  {
    || Gated(cfg, recent, historical) || cfg.deltaThreshold > 0.0
    || Mean(Positivity(), recent) - Mean(Positivity(), historical) < cfg.deltaThreshold
    || Mean(Positivity(), recent) - Mean(Positivity(), historical) > -cfg.deltaThreshold
  }

  lemma CompareMirror(cfg: TrendConfig, recent: seq<Observation>, historical: seq<Observation>)
    requires Answers(cfg, recent, historical)
    ensures Answers(cfg, NegateAll(recent), NegateAll(historical))
    ensures Mirrored(Compare(cfg, recent, historical), Compare(cfg, NegateAll(recent), NegateAll(historical)))
            <==> TellsApart(cfg, recent, historical)
  {
    if !Gated(cfg, recent, historical) { UngatedMirror(cfg, recent, historical); }
  }

  lemma UngatedIsJudge(cfg: TrendConfig, recent: seq<Observation>, historical: seq<Observation>)
    requires Answers(cfg, recent, historical) && !Gated(cfg, recent, historical)
    ensures Compare(cfg, recent, historical)
            == Judge(cfg, Mean(Positivity(), recent), Mean(Positivity(), historical), |recent|, |historical|)
  {
  }

  lemma NegatedIsJudge(cfg: TrendConfig, recent: seq<Observation>, historical: seq<Observation>)
    requires Answers(cfg, recent, historical) && !Gated(cfg, recent, historical)
    ensures Answers(cfg, NegateAll(recent), NegateAll(historical))
    ensures Compare(cfg, NegateAll(recent), NegateAll(historical))
            == Judge(cfg, 1.0 - Mean(Positivity(), recent), 1.0 - Mean(Positivity(), historical), |recent|, |historical|)
  {
    NegatedGate(cfg, recent, historical);
    UngatedIsJudge(cfg, NegateAll(recent), NegateAll(historical));
    NegatedMean(recent);
    NegatedMean(historical);
  }

  lemma {:induction false} NegatedGate(cfg: TrendConfig, recent: seq<Observation>, historical: seq<Observation>)
    ensures Gated(cfg, NegateAll(recent), NegateAll(historical)) == Gated(cfg, recent, historical)
    ensures Answers(cfg, NegateAll(recent), NegateAll(historical)) == Answers(cfg, recent, historical)
    ensures |NegateAll(recent)| == |recent| && |NegateAll(historical)| == |historical|
  {
  }

  lemma {:induction false} UngatedMirror(cfg: TrendConfig, recent: seq<Observation>, historical: seq<Observation>)
    requires Answers(cfg, recent, historical) && !Gated(cfg, recent, historical)
    ensures Answers(cfg, NegateAll(recent), NegateAll(historical))
    ensures Mirrored(Compare(cfg, recent, historical), Compare(cfg, NegateAll(recent), NegateAll(historical)))
            <==> TellsApart(cfg, recent, historical)
  {
    UngatedIsJudge(cfg, recent, historical);
    NegatedIsJudge(cfg, recent, historical);
    JudgeMirror(cfg, Mean(Positivity(), recent), Mean(Positivity(), historical), |recent|, |historical|);
  }

  /**
   * Negating every sentiment mirrors the trend: counts and delta always, and the direction exactly when
   * a window is too small, the threshold is positive, or the difference of the window means clears
   * one bar only. Nothing in the settings stops a threshold at or below zero.
   */
  lemma Duality(cfg: TrendConfig, now: real, obs: seq<Observation>)
    requires Detects(cfg, now, obs)
    ensures Detects(cfg, now, NegateAll(obs))
    ensures Mirrored(Detect(cfg, now, obs), Detect(cfg, now, NegateAll(obs)))
            <==> TellsApart(cfg, Recent(cfg, now, obs), Historical(cfg, now, obs))
  {
    NegateWindows(cfg, now, obs);
    CompareMirror(cfg, Recent(cfg, now, obs), Historical(cfg, now, obs));
  }

  /** With a zero threshold two equally neutral windows are reported as rising, and so is their negation. */
  lemma ZeroThresholdIsNotDual(cfg: TrendConfig, recent: seq<Observation>, historical: seq<Observation>)
    requires cfg.deltaThreshold == 0.0 && Answers(cfg, recent, historical) && !Gated(cfg, recent, historical)
    requires forall o | o in recent + historical :: o.sentiment == 0.0
    ensures Compare(cfg, recent, historical).reason == SentimentUp
    ensures NegateAll(recent) == recent && NegateAll(historical) == historical
    ensures Compare(cfg, NegateAll(recent), NegateAll(historical)).reason == SentimentUp
  {
    NeutralWindow(recent, recent + historical);
    NeutralWindow(historical, recent + historical);
  }

  lemma {:induction false} NeutralWindow(w: seq<Observation>, all: seq<Observation>)
    requires w != [] && forall o | o in all :: o.sentiment == 0.0
    requires forall o | o in w :: o in all
    ensures Mean(Positivity(), w) == 0.5 && NegateAll(w) == w
  {
    MeanBounds(Positivity(), 0.5, 0.5, w);
    if |w| > 1 {
      NeutralWindow(w[1..], all);
    } else {
      assert NegateAll(w[1..]) == [];
    }
    assert Negate(w[0]) == w[0];
    assert w == [w[0]] + w[1..];
  }
}
