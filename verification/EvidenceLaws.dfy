/**
 * What counts, and what the stored numbers count: laws about the evidence tables in terms of reviews and
 * mentions themselves.
 */
module EvidenceLaws {
  import opened Wrappers
  import opened Stats
  import opened Sorting
  import opened Scoring
  import opened Evidence
  import opened RankingView
  import opened RankingRuns
  import opened RankingStore

  // ---- which reviews are evidence ----

  /** The mentions of one review are deleted. */
  function Deleted(db: Db, id: ReviewId): Db {
    db.(mentions := map k | k in db.mentions && k.review != id :: db.mentions[k])
  }

  lemma ExcludedEvidence(db: Db, id: ReviewId, r: Review, p: Pair)
    requires r.status != Published || r.isDuplicate
    ensures EvidenceOf(db.reviews[id := r], db.mentions, p) == EvidenceOf(db.reviews, Deleted(db, id).mentions, p)
  {
    var a, b := EvidenceOf(db.reviews[id := r], db.mentions, p), EvidenceOf(db.reviews, Deleted(db, id).mentions, p);
    forall k
      ensures k in a <==> k in b
      ensures k in a ==> a[k] == b[k]
    {
      EvidenceIff(db.reviews[id := r], db.mentions, k, p);
      EvidenceIff(db.reviews, Deleted(db, id).mentions, k, p);
    }
  }

  /**
   * A review that is flagged a duplicate or is not published scores like one without mentions: recomputing
   * any pairs gives the same rows, counts and dish aggregates.
   */
  lemma ExcludedIsDeleted(cfg: Config, db: Db, id: ReviewId, r: Review, pairs: set<Pair>)
    requires cfg.Usable() && (r.status != Published || r.isDuplicate)
    ensures var excluded, deleted := Recompute(cfg, db.(reviews := db.reviews[id := r]), pairs), Recompute(cfg, Deleted(db, id), pairs);
            excluded.scores == deleted.scores && excluded.counts == deleted.counts && excluded.dishes == deleted.dishes
  {
    forall p ensures EvidenceOf(db.reviews[id := r], db.mentions, p) == EvidenceOf(db.reviews, Deleted(db, id).mentions, p) {
      ExcludedEvidence(db, id, r, p);
    }
    SameEvidenceSameRows(cfg, db.(reviews := db.reviews[id := r]), Deleted(db, id), pairs);
  }

  lemma SameFreshScores(cfg: Config, db: Db, other: Db, live: set<Pair>)
    requires cfg.Usable() && forall p | p in live :: EvidenceOf(db.reviews, db.mentions, p) == EvidenceOf(other.reviews, other.mentions, p)
    ensures FreshScores(cfg, db.reviews, db.mentions, live) == FreshScores(cfg, other.reviews, other.mentions, live)
  {
    var a, b := FreshScores(cfg, db.reviews, db.mentions, live), FreshScores(cfg, other.reviews, other.mentions, live);
    forall p | p in live ensures a[p] == b[p] {}
  }

  lemma SameFreshCounts(db: Db, other: Db, live: set<Pair>)
    requires forall p | p in live :: EvidenceOf(db.reviews, db.mentions, p) == EvidenceOf(other.reviews, other.mentions, p)
    ensures FreshCounts(db.reviews, db.mentions, live) == FreshCounts(other.reviews, other.mentions, live)
  {
  }

  lemma SameEvidenceSameRows(cfg: Config, db: Db, other: Db, pairs: set<Pair>)
    requires cfg.Usable() && other.restaurants == db.restaurants
    requires other.scores == db.scores && other.counts == db.counts && other.dishes == db.dishes
    requires forall p :: EvidenceOf(db.reviews, db.mentions, p) == EvidenceOf(other.reviews, other.mentions, p)
    ensures Recompute(cfg, db, pairs).scores == Recompute(cfg, other, pairs).scores
    ensures Recompute(cfg, db, pairs).counts == Recompute(cfg, other, pairs).counts
    ensures Recompute(cfg, db, pairs).dishes == Recompute(cfg, other, pairs).dishes
  {
    SameFreshScores(cfg, db, other, Live(db.restaurants, pairs));
    SameFreshCounts(db, other, Live(db.restaurants, pairs));
    RecomputeIs(cfg, db, pairs);
    RecomputeIs(cfg, other, pairs);
  }

  /** What a moderator's decision makes of a review's mentions. */
  lemma DecisionCounts(db: Db, id: ReviewId, action: Action, k: MentionKey)
    requires id in db.reviews && k in db.mentions && k.review == id
    ensures var p, after := Pair(k.dish, db.mentions[k].restaurant), Moderate(db, id, action);
            k in EvidenceOf(after.reviews, after.mentions, p)
            <==> match action
                 case Publish => !db.reviews[id].isDuplicate
                 case Reject => false
                 case Flag => false
                 case Dismiss => k in EvidenceOf(db.reviews, db.mentions, p)
  {
    var p := Pair(k.dish, db.mentions[k].restaurant);
    EvidenceIff(db.reviews, db.mentions, k, p);
    EvidenceIff(Moderate(db, id, action).reviews, db.mentions, k, p);
  }

  /** A processed review's mentions count exactly if it was published and no duplicate, is none now, and is not a user's spam. */
  lemma ProcessedCounts(db: Db, batch: BatchId, id: ReviewId, a: Analysis, d: DishId)
    requires id in db.reviews && d in a.rows
    ensures var r, after := db.reviews[id], Process(db, batch, id, a);
            MentionKey(id, d) in EvidenceOf(after.reviews, after.mentions, Pair(d, r.restaurant))
            <==> r.status == Published && !r.isDuplicate && !a.nearDuplicate && !(a.isSpam && r.source == User)
  {
    var after, k := Process(db, batch, id, a), MentionKey(id, d);
    ProcessReplacesExactly(db, batch, id, a, k);
    EvidenceIff(after.reviews, after.mentions, k, Pair(d, db.reviews[id].restaurant));
  }

  /** A merge moves every review and mention of the duplicate to the target, and nothing else about them. */
  lemma MergeMoves(db: Db, target: RestaurantId, duplicate: RestaurantId)
    ensures var after := Merge(db, target, duplicate);
            && after.reviews.Keys == db.reviews.Keys && after.mentions.Keys == db.mentions.Keys
            && (forall r | r in db.reviews ::
                  after.reviews[r] == db.reviews[r].(restaurant := if db.reviews[r].restaurant == duplicate then target else db.reviews[r].restaurant))
            && (forall k | k in db.mentions ::
                  after.mentions[k] == db.mentions[k].(restaurant := if db.mentions[k].restaurant == duplicate then target else db.mentions[k].restaurant))
            && (target != duplicate ==> forall r | r in after.reviews :: after.reviews[r].restaurant != duplicate)
            && (forall p: Pair | p.restaurant != duplicate && p.restaurant != target ::
                  (p in after.scores <==> p in db.scores) && (p in after.counts <==> p in db.counts)
                  && (p in db.scores ==> after.scores[p] == db.scores[p]) && (p in db.counts ==> after.counts[p] == db.counts[p]))
            && (forall p | p in after.scores :: p.restaurant != target && p.restaurant != duplicate)
            && (forall p | p in after.counts :: p.restaurant != duplicate)
  {
  }

  // ---- what a pair's rows count ----

  /** The mentions among these with property `p`. */
  function Where(p: Observation -> bool, ids: seq<MentionKey>, ev: map<MentionKey, Observation>): set<MentionKey>
    requires forall k | k in ids :: k in ev
  {
    set k | k in ids && p(ev[k])
  }

  lemma WhereNext(p: Observation -> bool, ids: seq<MentionKey>, ev: map<MentionKey, Observation>)
    requires ids != [] && Distinct(ids) && forall k | k in ids :: k in ev
    ensures |Where(p, ids, ev)| == |Where(p, ids[1..], ev)| + (if p(ev[ids[0]]) then 1 else 0)
  {
    assert ids == [ids[0]] + ids[1..] && ids[0] !in ids[1..];
    assert Where(p, ids, ev) == Where(p, ids[1..], ev) + (if p(ev[ids[0]]) then {ids[0]} else {});
  }

  lemma {:induction false} PickCount(p: Observation -> bool, ids: seq<MentionKey>, ev: map<MentionKey, Observation>)
    requires Distinct(ids) && forall k | k in ids :: k in ev
    ensures Count(p, Pick(ids, ev)) == |Where(p, ids, ev)|
  {
    if ids == [] {
      assert Where(p, ids, ev) == {};
    } else {
      PickCount(p, ids[1..], ev);
      WhereNext(p, ids, ev);
    }
  }

  lemma {:induction false} SumOfSame(f: Observation -> real, g: Observation -> real, s: seq<Observation>)
    requires forall o :: f(o) == g(o)
    ensures Sum(f, s) == Sum(g, s)
  {
    if s != [] { SumOfSame(f, g, s[1..]); }
  }

  lemma {:induction false} SizeOfEvidence(ids: seq<MentionKey>, keys: set<MentionKey>)
    requires Evidence.Lists(ids, keys)
    ensures |ids| == |keys|
  {
    if ids == [] {
      assert keys == {};
    } else {
      assert ids == [ids[0]] + ids[1..];
      forall k | k in keys - {ids[0]} ensures k in ids[1..] { assert k in ids; }
      SizeOfEvidence(ids[1..], keys - {ids[0]});
    }
  }

  function Praised(ev: map<MentionKey, Observation>): set<MentionKey> { set k | k in ev && ev[k].sentiment > 0.15 }

  function Blamed(ev: map<MentionKey, Observation>): set<MentionKey> { set k | k in ev && ev[k].sentiment < -0.15 }

  function Neutral(ev: map<MentionKey, Observation>): set<MentionKey> { set k | k in ev && -0.15 <= ev[k].sentiment <= 0.15 }

  lemma {:induction false} UpAndDown(ev: map<MentionKey, Observation>, ids: seq<MentionKey>)
    requires Evidence.Lists(ids, ev.Keys)
    ensures Count(IsUp(), Pick(ids, ev)) == |Praised(ev)| && Count(IsDown(), Pick(ids, ev)) == |Blamed(ev)|
  {
    PickCount(IsUp(), ids, ev);
    PickCount(IsDown(), ids, ev);
    assert Where(IsUp(), ids, ev) == Praised(ev);
    assert Where(IsDown(), ids, ev) == Blamed(ev);
  }

  lemma ThreeKinds(ev: map<MentionKey, Observation>)
    ensures |ev.Keys| == |Praised(ev)| + |Blamed(ev)| + |Neutral(ev)|
  {
    assert ev.Keys == Praised(ev) + Blamed(ev) + Neutral(ev);
  }

  /** The stored counts are numbers of mentions, told apart by sentiment at 0.15 to either side. */
  lemma {:induction false} CountsAreSizes(ev: map<MentionKey, Observation>)
    ensures ScratchCounts(ev) == CountRow(|ev.Keys|, |Praised(ev)|, |Blamed(ev)|, |Neutral(ev)|)
  {
    var ids := AnyOrder(ev.Keys);
    SizeOfEvidence(ids, ev.Keys);
    UpAndDown(ev, ids);
    ThreeKinds(ev);
  }

  /** The part that `up` is of `n`; of nothing it is nothing. */
  function Part(up: nat, n: nat): real { if n == 0 then 0.0 else up as real / n as real }

  lemma {:induction false} RatioIsPart(obs: seq<Observation>)
    ensures PositiveRatio(obs) == Part(Count(IsUp(), obs), |obs|)
  {
    CountIsSum(IsUp(), obs);
    SumOfSame(Indicator(IsUp()), IsPositive(), obs);
  }

  lemma {:induction false} OwnCounts(c: Setting, obs: seq<Observation>)
    requires Defined(c)
    ensures var row := Own(ComputeDishScore(c, obs)); row.mentionCount == |obs| && row.positiveRatio == Part(Count(IsUp(), obs), |obs|)
  {
    RatioIsPart(obs);
  }

  /** A score row tells how many mentions it is made of, and what part of them praises. */
  lemma {:induction false} ScoreRowCounts(cfg: Config, ev: map<MentionKey, Observation>)
    requires cfg.Usable()
    ensures ScratchScore(cfg, ev).mentionCount == |ev.Keys|
    ensures ScratchScore(cfg, ev).positiveRatio == Part(|Praised(ev)|, |ev.Keys|)
  {
    var ids := AnyOrder(ev.Keys);
    SizeOfEvidence(ids, ev.Keys);
    OwnCounts(cfg.At(0.0, None, None), Pick(ids, ev));
    UpAndDown(ev, ids);
  }

  // ---- what a dish aggregate counts ----

  function RankedRows(rows: map<Pair, ScoreRow>): set<Pair> { set p | p in rows && rows[p].status == Ranked }

  lemma RankedMore(rows: map<Pair, ScoreRow>, p: Pair)
    requires p in rows
    ensures |RankedRows(rows)| == |RankedRows(rows - {p})| + (if rows[p].status == Ranked then 1 else 0)
  {
    assert RankedRows(rows) == RankedRows(rows - {p}) + (if rows[p].status == Ranked then {p} else {});
  }

  /** The restaurants of a dish are its ranked rows. */
  lemma {:induction false} RestaurantsAreRanked(rows: map<Pair, ScoreRow>)
    ensures Aggregate(rows).restaurantCount == |RankedRows(rows)|
    decreases |rows.Keys|
  {
    if rows == map[] {
      assert RankedRows(rows) == {};
    } else {
      assert rows.Keys != {};
      var p :| p in rows;
      AggregateRemove(rows, p);
      assert (rows - {p}).Keys == rows.Keys - {p};
      RestaurantsAreRanked(rows - {p});
      RankedMore(rows, p);
    }
  }

  /** The mentions of published reviews that are no duplicates, for any of these pairs. */
  function Counted(db: Db, pairs: set<Pair>): set<MentionKey> {
    set k | k in db.mentions && Pair(k.dish, db.mentions[k].restaurant) in pairs
            && k.review in db.reviews && db.reviews[k.review].status == Published && !db.reviews[k.review].isDuplicate
  }

  lemma CountedOne(db: Db, p: Pair)
    ensures Counted(db, {p}) == EvidenceOf(db.reviews, db.mentions, p).Keys
  {
    forall k ensures k in Counted(db, {p}) <==> k in EvidenceOf(db.reviews, db.mentions, p) {
      EvidenceIff(db.reviews, db.mentions, k, p);
    }
  }

  lemma CountedMore(db: Db, pairs: set<Pair>, p: Pair)
    requires p in pairs
    ensures |Counted(db, pairs)| == |Counted(db, pairs - {p})| + |EvidenceOf(db.reviews, db.mentions, p).Keys|
  {
    CountedOne(db, p);
    assert Counted(db, pairs) == Counted(db, pairs - {p}) + Counted(db, {p});
  }

  lemma {:induction false} RowsCountMentions(cfg: Config, db: Db, rows: map<Pair, ScoreRow>)
    requires cfg.Usable()
    requires forall p | p in rows :: rows[p].mentionCount == |EvidenceOf(db.reviews, db.mentions, p).Keys|
    ensures Aggregate(rows).mentionCount == |Counted(db, rows.Keys)|
    decreases |rows.Keys|
  {
    if rows == map[] {
      assert Counted(db, rows.Keys) == {};
    } else {
      assert rows.Keys != {};
      var p :| p in rows;
      AggregateRemove(rows, p);
      assert (rows - {p}).Keys == rows.Keys - {p};
      RowsCountMentions(cfg, db, rows - {p});
      CountedMore(db, rows.Keys, p);
    }
  }

  /**
   * Where the tables are those computed from scratch, a dish's mention count is the number of its mentions in published reviews that
   * are no duplicates, over all restaurants: nothing is lost or counted twice on the way up.
   */
  lemma {:induction false} DishCountsMentions(cfg: Config, db: Db, d: DishId)
    requires cfg.Usable() && FromScratch(cfg, db) && d in db.dishes
    ensures db.dishes[d].mentionCount
            == |set k | k in db.mentions && k.dish == d && k.review in db.reviews
                        && db.reviews[k.review].status == Published && !db.reviews[k.review].isDuplicate|
    ensures db.dishes[d].restaurantCount == |set p: Pair | p in db.scores && p.dish == d && db.scores[p].status == Ranked|
  {
    assert DishAgrees(db, d);
    RowsFromScratch(cfg, db, d);
    RestaurantsAreRanked(RowsOf(db.scores, d));
    assert RankedRows(RowsOf(db.scores, d)) == (set p: Pair | p in db.scores && p.dish == d && db.scores[p].status == Ranked);
    AllCounted(cfg, db, d);
  }

  lemma {:induction false} RowsFromScratch(cfg: Config, db: Db, d: DishId)
    requires cfg.Usable() && FromScratch(cfg, db)
    ensures Aggregate(RowsOf(db.scores, d)).mentionCount == |Counted(db, RowsOf(db.scores, d).Keys)|
  {
    var rows := RowsOf(db.scores, d);
    forall p | p in rows ensures rows[p].mentionCount == |EvidenceOf(db.reviews, db.mentions, p).Keys| {
      assert Agrees(cfg, db, p);
      ScoreRowCounts(cfg, EvidenceOf(db.reviews, db.mentions, p));
    }
    RowsCountMentions(cfg, db, rows);
  }

  lemma AllCounted(cfg: Config, db: Db, d: DishId)
    requires cfg.Usable() && FromScratch(cfg, db)
    ensures Counted(db, RowsOf(db.scores, d).Keys)
            == set k | k in db.mentions && k.dish == d && k.review in db.reviews
                       && db.reviews[k.review].status == Published && !db.reviews[k.review].isDuplicate
  {
    forall k | k in db.mentions && k.dish == d ensures Pair(d, db.mentions[k].restaurant) in RowsOf(db.scores, d) {
      var p := Pair(d, db.mentions[k].restaurant);
      assert Touches(db.mentions, k, p);
      assert Agrees(cfg, db, p);
    }
  }
}
