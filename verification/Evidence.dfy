/**
 * The evidence tables, the score tables maintained from them incrementally, and every operation
 * that changes either. Each operation is one transaction; a worker's queue delivers every task.
 */
module Evidence {
  import opened Wrappers
  import opened Stats
  import opened Sorting
  import opened Scoring

  type ReviewId = nat
  type DishId = nat
  type RestaurantId = nat
  type BatchId = nat

  datatype Pair = Pair(dish: DishId, restaurant: RestaurantId)

  datatype ReviewStatus = Pending | Published | Rejected | Flagged

  datatype Review = Review(
    restaurant: RestaurantId, status: ReviewStatus, isDuplicate: bool,
    source: Source, engagement: int, publishedAt: Option<real>, reportCount: nat)

  /** The UNIQUE(review, dish) key of a mention. */
  datatype MentionKey = MentionKey(review: ReviewId, dish: DishId)

  datatype Mention = Mention(
    restaurant: RestaurantId, sentiment: real, confidence: real,
    price: Option<real>, attributes: seq<string>, byModel: bool)

  /** The columns of a dish score that depend on the pair's own evidence only. */
  datatype ScoreRow = ScoreRow(
    status: Status, mentionCount: nat, positiveRatio: real, consistency: real,
    priceAvg: Option<real>, topAttributes: seq<string>)

  datatype CountRow = CountRow(mentions: nat, positive: nat, negative: nat, neutral: int)

  datatype DishRow = DishRow(mentionCount: nat, restaurantCount: nat)

  datatype Config = Config(num: Numerics, w: Weights)
  {
    function At(now: real, prior: Option<real>, cityMedian: Option<real>): Setting {
      Setting(num, w, now, prior, cityMedian)
    }

    predicate Usable() { Defined(At(0.0, None, None)) }
  }

  datatype Db = Db(
    restaurants: set<RestaurantId>,
    reviews: map<ReviewId, Review>,
    mentions: map<MentionKey, Mention>,
    scores: map<Pair, ScoreRow>,
    counts: map<Pair, CountRow>,
    dishes: map<DishId, DishRow>,
    dirty: map<BatchId, set<Pair>>,        // pairs a running AI batch will report when it ends
    pairTasks: multiset<set<Pair>>,        // queued recompute_pairs tasks
    reviewTasks: multiset<ReviewId>)       // queued recompute_review tasks

  // ---- evidence of a pair ----

  predicate Counts(r: Review) { r.status.Published? && !r.isDuplicate }

  function ObservationOf(r: Review, m: Mention): Observation {
    Observation(m.sentiment, m.confidence, r.source, r.engagement, r.publishedAt,
                if m.price == Some(0.0) then None else m.price, m.attributes, true, m.byModel)
  }

  predicate Touches(mentions: map<MentionKey, Mention>, k: MentionKey, p: Pair) {
    k in mentions && k.dish == p.dish && mentions[k].restaurant == p.restaurant
  }

  /** What a mention contributes to a pair: only published, non-duplicate reviews count. */
  function Seen(reviews: map<ReviewId, Review>, mentions: map<MentionKey, Mention>, k: MentionKey, p: Pair): Option<Observation> {
    if Touches(mentions, k, p) && k.review in reviews && Counts(reviews[k.review])
    then Some(ObservationOf(reviews[k.review], mentions[k])) else None
  }

  function EvidenceOf(reviews: map<ReviewId, Review>, mentions: map<MentionKey, Mention>, p: Pair): map<MentionKey, Observation> {
    map k | k in mentions && Seen(reviews, mentions, k, p).Some? :: Seen(reviews, mentions, k, p).value
  }

  lemma EvidenceEqual(r: map<ReviewId, Review>, m: map<MentionKey, Mention>,
                      r': map<ReviewId, Review>, m': map<MentionKey, Mention>, p: Pair)
    requires forall k :: Seen(r, m, k, p) == Seen(r', m', k, p)
    ensures EvidenceOf(r, m, p) == EvidenceOf(r', m', p)
  {
    forall k ensures k in EvidenceOf(r, m, p) <==> Seen(r, m, k, p).Some? {}
    forall k ensures k in EvidenceOf(r', m', p) <==> Seen(r', m', k, p).Some? {}
  }

  /** A mention is evidence of a pair exactly if it names the pair, and its review is published and no duplicate. */
  lemma EvidenceIff(r: map<ReviewId, Review>, m: map<MentionKey, Mention>, k: MentionKey, p: Pair)
    ensures k in EvidenceOf(r, m, p)
            <==> k in m && k.dish == p.dish && m[k].restaurant == p.restaurant
                 && k.review in r && r[k.review].status == Published && !r[k.review].isDuplicate
    ensures k in EvidenceOf(r, m, p) ==>
              var o, x, y := EvidenceOf(r, m, p)[k], m[k], r[k.review];
              && o.sentiment == x.sentiment && o.confidence == x.confidence && o.attributes == x.attributes && o.byModel == x.byModel
              && o.price == (if x.price == Some(0.0) then None else x.price)
              && o.source == y.source && o.engagement == y.engagement && o.observedAt == y.publishedAt && o.verifiedAuthor
  {
  }

  ghost predicate HasMention(mentions: map<MentionKey, Mention>, p: Pair) {
    exists k :: Touches(mentions, k, p)
  }

  // ---- rows computed from scratch ----

  ghost predicate Lists<K>(ids: seq<K>, keys: set<K>) {
    Distinct(ids) && (forall k | k in ids :: k in keys) && (forall k | k in keys :: k in ids)
  }

  ghost function AnyOrder<K>(keys: set<K>): (ids: seq<K>)
    ensures Lists(ids, keys)
  {
    if keys == {} then [] else
      var k :| k in keys;
      [k] + AnyOrder(keys - {k})
  }

  function Pick<K, V>(ids: seq<K>, rows: map<K, V>): (r: seq<V>)
    requires forall k | k in ids :: k in rows
    ensures |r| == |ids|
  {
    if ids == [] then [] else [rows[ids[0]]] + Pick(ids[1..], rows)
  }

  function Own(r: DishScore): ScoreRow {
    ScoreRow(r.status, r.mentionCount, r.positiveRatio, r.consistency, r.priceAvg, r.topAttributes)
  }

  function IsUp(): Observation -> bool { (o: Observation) => o.sentiment > 0.15 }

  function IsDown(): Observation -> bool { (o: Observation) => o.sentiment < -0.15 }

  function CountsOf(obs: seq<Observation>): CountRow {
    var up, down := Count(IsUp(), obs), Count(IsDown(), obs);
    CountRow(|obs|, up, down, |obs| - up - down)
  }

  ghost function ScratchScore(cfg: Config, ev: map<MentionKey, Observation>): ScoreRow
    requires cfg.Usable()
  {
    Own(ComputeDishScore(cfg.At(0.0, None, None), Pick(AnyOrder(ev.Keys), ev)))
  }

  ghost function ScratchCounts(ev: map<MentionKey, Observation>): CountRow {
    CountsOf(Pick(AnyOrder(ev.Keys), ev))
  }

  lemma {:induction false} PickPermutation<K, V>(s: seq<K>, t: seq<K>, rows: map<K, V>)
    requires Lists(s, rows.Keys) && Lists(t, rows.Keys)
    ensures multiset(Pick(s, rows)) == multiset(Pick(t, rows))
  {
    DistinctIsMultiplicity(s);
    DistinctIsMultiplicity(t);
    assert multiset(s) == multiset(t);
    PickMultiset(s, t, rows);
  }

  lemma {:induction false} PickAppend<K, V>(s: seq<K>, t: seq<K>, rows: map<K, V>)
    requires forall k | k in s + t :: k in rows
    ensures forall k | k in s :: k in rows
    ensures forall k | k in t :: k in rows
    ensures Pick(s + t, rows) == Pick(s, rows) + Pick(t, rows)
  {
    forall k | k in s ensures k in rows { assert k in s + t; }
    forall k | k in t ensures k in rows { assert k in s + t; }
    if s == [] {
      assert s + t == t;
    } else {
      assert (s + t)[1..] == s[1..] + t;
      PickAppend(s[1..], t, rows);
    }
  }

  lemma {:induction false} PickWithout<K, V>(t: seq<K>, i: nat, rows: map<K, V>)
    requires i < |t| && forall k | k in t :: k in rows
    ensures forall k | k in t[..i] + t[i + 1..] :: k in rows
    ensures multiset(Pick(t, rows)) == multiset{rows[t[i]]} + multiset(Pick(t[..i] + t[i + 1..], rows))
  {
    var a, b := t[..i], t[i + 1..];
    assert t == a + ([t[i]] + b);
    PickAppend(a, [t[i]] + b, rows);
    PickAppend(a, b, rows);
    assert ([t[i]] + b)[1..] == b;
  }

  lemma {:induction false} PickMultiset<K, V>(s: seq<K>, t: seq<K>, rows: map<K, V>)
    requires multiset(s) == multiset(t)
    requires forall k | k in s :: k in rows
    requires forall k | k in t :: k in rows
    ensures multiset(Pick(s, rows)) == multiset(Pick(t, rows))
  {
    if s == [] {
      assert |multiset(t)| == |t|;
    } else {
      assert s[0] in multiset(t);
      var i :| 0 <= i < |t| && t[i] == s[0];
      RemoveAt(s, t, i);
      PickWithout(t, i, rows);
      PickMultiset(s[1..], t[..i] + t[i + 1..], rows);
    }
  }

  lemma OwnIgnoresClockAndPrior(cfg: Config, now: real, prior: Option<real>, median: Option<real>, obs: seq<Observation>)
    requires cfg.Usable()
    ensures Own(ComputeDishScore(cfg.At(now, prior, median), obs)) == Own(ComputeDishScore(cfg.At(0.0, None, None), obs))
  {
  }

  /** Whatever order the rows are read in and whenever the scorer runs, the pair's own columns are the same. */
  lemma {:induction false} ScratchIsCanonical(cfg: Config, ev: map<MentionKey, Observation>, ids: seq<MentionKey>,
                           now: real, prior: Option<real>, median: Option<real>)
    requires cfg.Usable() && Lists(ids, ev.Keys)
    ensures Own(ComputeDishScore(cfg.At(now, prior, median), Pick(ids, ev))) == ScratchScore(cfg, ev)
    ensures CountsOf(Pick(ids, ev)) == ScratchCounts(ev)
  {
    var s, t := Pick(ids, ev), Pick(AnyOrder(ev.Keys), ev);
    PickPermutation(ids, AnyOrder(ev.Keys), ev);
    OwnIgnoresClockAndPrior(cfg, now, prior, median, s);
    ScorePermutation(cfg.At(0.0, None, None), s, t);
    CountsPermutation(s, t);
  }

  lemma {:induction false} CountsPermutation(s: seq<Observation>, t: seq<Observation>)
    requires multiset(s) == multiset(t)
    ensures CountsOf(s) == CountsOf(t)
  {
    assert |multiset(s)| == |multiset(t)|;
    CountPermutation(IsUp(), s, t);
    CountPermutation(IsDown(), s, t);
  }
}
