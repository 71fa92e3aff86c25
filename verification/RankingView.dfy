/**
 * Incremental maintenance of the score tables, as a state machine over the operations that
 * change evidence or scores. The invariant: every pair's stored columns equal those computed
 * from scratch, or some queued work or the nightly sweep will recompute that pair.
 */
module RankingView {
  import opened Evidence

  // ---- dish aggregates ----

  function AddRow(a: DishRow, r: ScoreRow): DishRow {
    DishRow(a.mentionCount + r.mentionCount, a.restaurantCount + (if r.status.Ranked? then 1 else 0))
  }

  ghost function Aggregate(rows: map<Pair, ScoreRow>): DishRow {
    if rows == map[] then DishRow(0, 0) else
      assert rows.Keys != {};
      var p :| p in rows;
      AddRow(Aggregate(rows - {p}), rows[p])
  }

  function RowsOf(scores: map<Pair, ScoreRow>, d: DishId): map<Pair, ScoreRow> {
    map p | p in scores && p.dish == d :: scores[p]
  }

  lemma {:induction false} AggregateRemove(rows: map<Pair, ScoreRow>, p: Pair)
    requires p in rows
    ensures Aggregate(rows) == AddRow(Aggregate(rows - {p}), rows[p])
    decreases rows.Keys
  {
    assert rows.Keys != {};
    var q :| q in rows && Aggregate(rows) == AddRow(Aggregate(rows - {q}), rows[q]);
    if q != p {
      AggregateRemove(rows - {q}, p);
      AggregateRemove(rows - {p}, q);
      assert rows - {q} - {p} == rows - {p} - {q};
      var base := Aggregate(rows - {q} - {p});
      assert Aggregate(rows - {q}) == AddRow(base, rows[p]);
      assert Aggregate(rows - {p}) == AddRow(base, rows[q]);
      assert AddRow(AddRow(base, rows[p]), rows[q]) == AddRow(AddRow(base, rows[q]), rows[p]);
      assert Aggregate(rows) == AddRow(Aggregate(rows - {q}), rows[q]);
    }
  }

  predicate IsZero(r: ScoreRow) { r.mentionCount == 0 && r.status.InsufficientData? }

  /** Rows without mentions can be dropped from an aggregate. */
  lemma {:induction false} AggregateDropZeros(rows: map<Pair, ScoreRow>, gone: set<Pair>)
    requires forall p | p in gone && p in rows :: IsZero(rows[p])
    ensures Aggregate(rows - gone) == Aggregate(rows)
    decreases gone
  {
    if gone == {} {
      assert rows - gone == rows;
    } else {
      var p :| p in gone;
      AggregateDropZeros(rows - {p}, gone - {p});
      assert rows - {p} - (gone - {p}) == rows - gone;
      if p in rows {
        AggregateRemove(rows, p);
      } else {
        assert rows - {p} == rows;
      }
    }
  }

  // ---- operations ----

  function Pairs(mentions: map<MentionKey, Mention>, review: ReviewId): set<Pair> {
    set k | k in mentions && k.review == review :: Pair(k.dish, mentions[k].restaurant)
  }

  ghost function Recompute(cfg: Config, db: Db, pairs: set<Pair>): Db
    requires cfg.Usable()
  {
    var live := set p | p in pairs && p.restaurant in db.restaurants;
    var scores := db.scores + map p | p in live :: ScratchScore(cfg, EvidenceOf(db.reviews, db.mentions, p));
    var counts := db.counts + map p | p in live :: ScratchCounts(EvidenceOf(db.reviews, db.mentions, p));
    var touched := set p | p in live :: p.dish;
    var dishes := map d | d in db.dishes :: if d in touched then Aggregate(RowsOf(scores, d)) else db.dishes[d];
    db.(scores := scores, counts := counts, dishes := dishes)
  }

  datatype Analysis = Analysis(rows: map<DishId, Mention>, isSpam: bool, nearDuplicate: bool)

  function Annotated(r: Review, a: Analysis): Review {
    r.(isDuplicate := r.isDuplicate || a.nearDuplicate,
       status := if a.isSpam && r.source.User? then Flagged else r.status)
  }

  function Inserted(id: ReviewId, restaurant: RestaurantId, rows: map<DishId, Mention>): map<MentionKey, Mention> {
    map k | k in RowKeys(id, rows.Keys) :: rows[k.dish].(restaurant := restaurant)
  }

  function RowKeys(id: ReviewId, dishes: set<DishId>): (r: set<MentionKey>)
    ensures forall k :: k in r <==> k.review == id && k.dish in dishes
  {
    var r := set d | d in dishes :: MentionKey(id, d);
    assert forall k: MentionKey :: k.review == id && k.dish in dishes ==> k == MentionKey(id, k.dish);
    r
  }

  function Without(mentions: map<MentionKey, Mention>, id: ReviewId): map<MentionKey, Mention> {
    map k | k in mentions && k.review != id :: mentions[k]
  }

  function Reported(db: Db, id: ReviewId, a: Analysis): set<Pair>
    requires id in db.reviews
  {
    Pairs(db.mentions, id) + set d | d in a.rows :: Pair(d, db.reviews[id].restaurant)
  }

  function BatchPairs(db: Db, batch: BatchId): set<Pair> {
    if batch in db.dirty then db.dirty[batch] else {}
  }

  /** Replace the review's mentions, and add the old and the new pairs to the batch's dirty set. */
  function Process(db: Db, batch: BatchId, id: ReviewId, a: Analysis): Db
    requires id in db.reviews
  {
    db.(reviews := db.reviews[id := Annotated(db.reviews[id], a)],
        mentions := Without(db.mentions, id) + Inserted(id, db.reviews[id].restaurant, a.rows),
        dirty := db.dirty[batch := BatchPairs(db, batch) + Reported(db, id, a)])
  }

  function EndBatch(db: Db, batch: BatchId): Db {
    db.(pairTasks := if BatchPairs(db, batch) == {} then db.pairTasks else db.pairTasks + multiset{BatchPairs(db, batch)},
        dirty := db.dirty - {batch})
  }

  datatype Action = Publish | Reject | Flag | Dismiss

  function Decide(r: Review, action: Action): Review {
    match action
    case Publish => r.(status := Published)
    case Reject => r.(status := Rejected)
    case Flag => r.(status := Flagged)
    case Dismiss => r
  }

  function Moderate(db: Db, id: ReviewId, action: Action): Db
    requires id in db.reviews
  {
    db.(reviews := db.reviews[id := Decide(db.reviews[id], action)], reviewTasks := db.reviewTasks + multiset{id})
  }

  function Moved(mentions: map<MentionKey, Mention>, target: RestaurantId, duplicate: RestaurantId): map<MentionKey, Mention> {
    map k | k in mentions ::
      if mentions[k].restaurant == duplicate then mentions[k].(restaurant := target) else mentions[k]
  }

  /** Repoint the duplicate's evidence, and drop the rows a recompute must rebuild. */
  function Merge(db: Db, target: RestaurantId, duplicate: RestaurantId): Db {
    db.(reviews := map r | r in db.reviews ::
          if db.reviews[r].restaurant == duplicate then db.reviews[r].(restaurant := target) else db.reviews[r],
        mentions := Moved(db.mentions, target, duplicate),
        counts := map p | p in db.counts && p.restaurant != duplicate :: db.counts[p],
        scores := map p | p in db.scores && p.restaurant != duplicate && p.restaurant != target :: db.scores[p])
  }

  datatype Event =
    | Submit(id: ReviewId, review: Review)
    | AddRestaurant(restaurant: RestaurantId)
    | ProcessReview(batch: BatchId, id: ReviewId, analysis: Analysis)
    | FinishBatch(batch: BatchId)
    | ModerateReview(id: ReviewId, action: Action)
    | DeleteReview(id: ReviewId)
    | MergeRestaurants(target: RestaurantId, duplicate: RestaurantId)
    | RunPairs(pairs: set<Pair>)
    | RunReview(id: ReviewId)
    | Sweep(stale: set<Pair>, missing: set<Pair>)

  ghost predicate Missing(db: Db, p: Pair) {
    HasMention(db.mentions, p) && p !in db.scores
  }

  ghost predicate Enabled(db: Db, e: Event) {
    match e
    case Submit(id, review) => id !in db.reviews && review.restaurant in db.restaurants
    case AddRestaurant(r) => true
    case ProcessReview(batch, id, a) => id in db.reviews && a.rows.Keys <= db.dishes.Keys
    case FinishBatch(batch) => batch in db.dirty
    case ModerateReview(id, action) => id in db.reviews
    case DeleteReview(id) => id in db.reviews
    case MergeRestaurants(target, duplicate) =>
      target in db.restaurants && duplicate in db.restaurants && target != duplicate
    case RunPairs(pairs) => pairs in db.pairTasks
    case RunReview(id) => id in db.reviewTasks
    case Sweep(stale, missing) => stale <= db.scores.Keys && forall p | p in missing :: Missing(db, p)
  }

  ghost function Step(cfg: Config, db: Db, e: Event): Db
    requires cfg.Usable() && Enabled(db, e)
  {
    match e
    case Submit(id, review) => db.(reviews := db.reviews[id := review])
    case AddRestaurant(r) => db.(restaurants := db.restaurants + {r})
    case ProcessReview(batch, id, a) => Process(db, batch, id, a)
    case FinishBatch(batch) => EndBatch(db, batch)
    case ModerateReview(id, action) => Moderate(db, id, action)
    case DeleteReview(id) => Moderate(db, id, Reject)
    case MergeRestaurants(target, duplicate) => Merge(db, target, duplicate)
    case RunPairs(pairs) => Recompute(cfg, db.(pairTasks := db.pairTasks - multiset{pairs}), pairs)
    case RunReview(id) => Recompute(cfg, db.(reviewTasks := db.reviewTasks - multiset{id}), Pairs(db.mentions, id))
    case Sweep(stale, missing) => Recompute(cfg, db, stale + missing)
  }

  // ---- the invariant ----

  predicate Known(db: Db, p: Pair) { p.restaurant in db.restaurants && p.dish in db.dishes }

  ghost predicate WellFormed(db: Db) {
    && (forall k | k in db.mentions ::
          k.review in db.reviews && db.mentions[k].restaurant in db.restaurants && k.dish in db.dishes)
    && (forall r | r in db.reviews :: db.reviews[r].restaurant in db.restaurants)
    && (forall p | p in db.scores :: p in db.counts && Known(db, p))
    && (forall p | InBatch(db, p) || InPairTask(db, p) :: Known(db, p))
  }

  ghost predicate InBatch(db: Db, p: Pair) { exists b :: b in db.dirty && p in db.dirty[b] }

  ghost predicate InPairTask(db: Db, p: Pair) { exists t :: t in db.pairTasks && p in t }

  ghost predicate InReviewTask(db: Db, p: Pair) {
    exists r :: r in db.reviewTasks && Touches(db.mentions, MentionKey(r, p.dish), p)
  }

  /** Some pending work recomputes this pair. */
  ghost predicate Covered(db: Db, p: Pair) {
    InBatch(db, p) || InPairTask(db, p) || InReviewTask(db, p) || Missing(db, p)
  }

  /** The stored rows of a pair are those a computation from scratch gives. */
  ghost predicate Agrees(cfg: Config, db: Db, p: Pair)
    requires cfg.Usable()
  {
    && (p in db.scores ==> db.scores[p] == ScratchScore(cfg, EvidenceOf(db.reviews, db.mentions, p)))
    && (p in db.counts ==> db.counts[p] == ScratchCounts(EvidenceOf(db.reviews, db.mentions, p)))
    && (HasMention(db.mentions, p) ==> p in db.scores && p in db.counts)
  }

  ghost predicate DishAgrees(db: Db, d: DishId) {
    d in db.dishes ==> db.dishes[d] == Aggregate(RowsOf(db.scores, d))
  }

  ghost predicate DishCovered(db: Db, d: DishId) { exists p: Pair :: p.dish == d && Covered(db, p) }

  ghost predicate Inv(cfg: Config, db: Db)
    requires cfg.Usable()
  {
    && WellFormed(db)
    && (forall p :: Agrees(cfg, db, p) || Covered(db, p))
    && (forall d :: DishAgrees(db, d) || DishCovered(db, d))
  }

  // ---- recomputation ----

  /** `db` is `before` with one queued task taken off; `pairs` is what that task recomputes. */
  ghost predicate Takes(before: Db, db: Db, pairs: set<Pair>) {
    && db == before.(pairTasks := db.pairTasks, reviewTasks := db.reviewTasks)
    && db.pairTasks <= before.pairTasks && db.reviewTasks <= before.reviewTasks
    && (forall p | p in pairs :: Known(db, p))
    && (forall p | Covered(before, p) :: p in pairs || Covered(db, p))
  }

  lemma StillCovered(cfg: Config, db: Db, pairs: set<Pair>, p: Pair)
    requires cfg.Usable() && Covered(db, p) && p !in pairs
    ensures Covered(Recompute(cfg, db, pairs), p)
  {
    var after := Recompute(cfg, db, pairs);
    if InBatch(db, p) {
      assert InBatch(after, p);
    } else if InPairTask(db, p) {
      assert InPairTask(after, p);
    } else if InReviewTask(db, p) {
      assert InReviewTask(after, p);
    } else {
      assert Missing(after, p);
    }
  }

  lemma RecomputedPair(cfg: Config, before: Db, db: Db, pairs: set<Pair>, p: Pair)
    requires cfg.Usable() && Takes(before, db, pairs) && (Agrees(cfg, before, p) || Covered(before, p))
    ensures Agrees(cfg, Recompute(cfg, db, pairs), p) || Covered(Recompute(cfg, db, pairs), p)
  {
    if p in pairs {
      FreshRow(cfg, db, pairs, p);
    } else if Covered(before, p) {
      StillCovered(cfg, db, pairs, p);
    } else {
      SameRow(cfg, db, pairs, p);
    }
  }

  lemma FreshRow(cfg: Config, db: Db, pairs: set<Pair>, p: Pair)
    requires cfg.Usable() && p in pairs && Known(db, p)
    ensures Agrees(cfg, Recompute(cfg, db, pairs), p)
  {
  }

  lemma SameRow(cfg: Config, db: Db, pairs: set<Pair>, p: Pair)
    requires cfg.Usable() && p !in pairs && Agrees(cfg, db, p)
    ensures Agrees(cfg, Recompute(cfg, db, pairs), p)
  {
  }

  lemma RecomputedDish(cfg: Config, before: Db, db: Db, pairs: set<Pair>, d: DishId)
    requires cfg.Usable() && Takes(before, db, pairs) && (DishAgrees(before, d) || DishCovered(before, d))
    ensures DishAgrees(Recompute(cfg, db, pairs), d) || DishCovered(Recompute(cfg, db, pairs), d)
  {
    var after := Recompute(cfg, db, pairs);
    if p: Pair :| p in pairs && p.dish == d {
      TouchedDish(cfg, db, pairs, p);
    } else if DishAgrees(before, d) {
      UntouchedDish(cfg, db, pairs, d);
    } else {
      var p: Pair :| p.dish == d && Covered(before, p);
      StillCovered(cfg, db, pairs, p);
    }
  }

  lemma TouchedDish(cfg: Config, db: Db, pairs: set<Pair>, p: Pair)
    requires cfg.Usable() && p in pairs && Known(db, p)
    ensures DishAgrees(Recompute(cfg, db, pairs), p.dish)
  {
  }

  lemma UntouchedDish(cfg: Config, db: Db, pairs: set<Pair>, d: DishId)
    requires cfg.Usable() && DishAgrees(db, d) && forall p | p in pairs :: p.dish != d
    ensures DishAgrees(Recompute(cfg, db, pairs), d)
  {
    assert RowsOf(Recompute(cfg, db, pairs).scores, d) == RowsOf(db.scores, d);
  }

  lemma RecomputeKeeps(cfg: Config, before: Db, db: Db, pairs: set<Pair>)
    requires cfg.Usable() && Inv(cfg, before) && Takes(before, db, pairs)
    ensures Inv(cfg, Recompute(cfg, db, pairs))
  {
    forall p ensures Agrees(cfg, Recompute(cfg, db, pairs), p) || Covered(Recompute(cfg, db, pairs), p) {
      RecomputedPair(cfg, before, db, pairs, p);
    }
    forall d ensures DishAgrees(Recompute(cfg, db, pairs), d) || DishCovered(Recompute(cfg, db, pairs), d) {
      RecomputedDish(cfg, before, db, pairs, d);
    }
    RecomputeWellFormed(cfg, before, db, pairs);
  }

  lemma RecomputeWellFormed(cfg: Config, before: Db, db: Db, pairs: set<Pair>)
    requires cfg.Usable() && WellFormed(before) && Takes(before, db, pairs)
    ensures WellFormed(Recompute(cfg, db, pairs))
  {
    var after := Recompute(cfg, db, pairs);
    assert after.dishes.Keys == before.dishes.Keys;
    forall p | p in after.scores ensures p in after.counts && Known(after, p) {
      assert p in before.scores || p in pairs;
    }
    forall p | InBatch(after, p) || InPairTask(after, p) ensures Known(after, p) {
      assert InBatch(after, p) ==> InBatch(before, p);
      if t :| t in after.pairTasks && p in t { assert t in before.pairTasks; }
      assert Known(before, p);
    }
  }

  lemma RunPairsKeeps(cfg: Config, db: Db, pairs: set<Pair>)
    requires cfg.Usable() && Inv(cfg, db) && pairs in db.pairTasks
    ensures Inv(cfg, Step(cfg, db, RunPairs(pairs)))
  {
    var rest := db.(pairTasks := db.pairTasks - multiset{pairs});
    forall p | p in pairs ensures Known(db, p) { assert InPairTask(db, p); }
    forall p | Covered(db, p) ensures p in pairs || Covered(rest, p) {
      if InPairTask(db, p) && p !in pairs {
        var t :| t in db.pairTasks && p in t;
        assert t in rest.pairTasks;
      } else if InBatch(db, p) {
        assert InBatch(rest, p);
      } else if InReviewTask(db, p) {
        assert InReviewTask(rest, p);
      }
    }
    RecomputeKeeps(cfg, db, rest, pairs);
  }

  lemma RunReviewKeeps(cfg: Config, db: Db, id: ReviewId)
    requires cfg.Usable() && Inv(cfg, db) && id in db.reviewTasks
    ensures Inv(cfg, Step(cfg, db, RunReview(id)))
  {
    var rest, pairs := db.(reviewTasks := db.reviewTasks - multiset{id}), Pairs(db.mentions, id);
    forall p | Covered(db, p) ensures p in pairs || Covered(rest, p) {
      if InReviewTask(db, p) && p !in pairs {
        var r :| r in db.reviewTasks && Touches(db.mentions, MentionKey(r, p.dish), p);
        assert r != id;
        assert r in rest.reviewTasks;
      } else if InBatch(db, p) {
        assert InBatch(rest, p);
      } else if InPairTask(db, p) {
        assert InPairTask(rest, p);
      }
    }
    RecomputeKeeps(cfg, db, rest, pairs);
  }

  lemma SweepKeeps(cfg: Config, db: Db, stale: set<Pair>, missing: set<Pair>)
    requires cfg.Usable() && Inv(cfg, db) && Enabled(db, Sweep(stale, missing))
    ensures Inv(cfg, Step(cfg, db, Sweep(stale, missing)))
  {
    RecomputeKeeps(cfg, db, db, stale + missing);
  }
}
