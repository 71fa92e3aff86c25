/** The heuristic path meets the ranking tables: its mentions, dishes named by identifier, can always be inserted. */
module HeuristicStore {
  import Evidence
  import RankingView
  import RankingStore
  import RankingRuns
  import opened Extraction
  import opened Grounding
  import opened MentionRows

  /** The dish table: each slug names one dish. */
  type DishIds = map<string, Evidence.DishId>

  ghost predicate Injective(ids: DishIds) {
    forall s, t | s in ids && t in ids && ids[s] == ids[t] :: s == t
  }

  function MentionOf(m: Out): Evidence.Mention {
    Evidence.Mention(0, m.sentiment, m.confidence, m.price, m.attributes, false)
  }

  /** The rows to insert, with dishes by identifier. The restaurant is filled in by the insert. */
  function ByDish(ids: DishIds, rows: seq<Resolved>): (r: seq<(Evidence.DishId, Evidence.Mention)>)
    requires forall i | 0 <= i < |rows| :: rows[i].dish in ids
    ensures |r| == |rows| && forall i | 0 <= i < |r| :: r[i] == (ids[rows[i].dish], MentionOf(rows[i].mention))
  {
    seq(|rows|, i requires 0 <= i < |rows| => (ids[rows[i].dish], MentionOf(rows[i].mention)))
  }

  /** UNIQUE(review, dish) says the same of slugs as of identifiers. */
  lemma SameUniqueness(ids: DishIds, rows: seq<Resolved>)
    requires Injective(ids) && forall i | 0 <= i < |rows| :: rows[i].dish in ids
    ensures RankingStore.DistinctDishes(ByDish(ids, rows)) <==> DistinctDishes(rows)
  {
    var r := ByDish(ids, rows);
    if RankingStore.DistinctDishes(r) {
      forall i, j | 0 <= i < j < |rows| ensures rows[i].dish != rows[j].dish { assert r[i].0 != r[j].0; }
    }
    if DistinctDishes(rows) {
      forall i, j | 0 <= i < j < |r| ensures r[i].0 != r[j].0 { assert rows[i].dish != rows[j].dish; }
    }
  }

  lemma {:induction false} ResolvedExist(lang: Lang, slugs: set<string>, index: Index, ms: seq<Out>)
    ensures forall i | 0 <= i < |ResolveAll(lang, slugs, index, false, ms).0| :: ResolveAll(lang, slugs, index, false, ms).0[i].dish in slugs
    ensures ResolveAll(lang, slugs, index, false, ms).1 == slugs
  {
    if ms != [] { ResolvedExist(lang, slugs, index, ms[..|ms| - 1]); }
  }

  /** What the heuristic would insert for a review. */
  function RowsFor(lang: Lang, ids: DishIds, minConfidence: real, req: Request, keys: seq<string>): seq<Resolved>
    requires Extraction.Lists(keys, req.index)
  {
    ResolveAll(lang, ids.Keys, req.index, false, Analyze(lang, Policy(minConfidence, false), req, keys)).0
  }

  lemma HeuristicFits(lang: Lang, ids: DishIds, minConfidence: real, req: Request, keys: seq<string>)
    requires Extraction.Lists(keys, req.index) && Sound(req.index, ids.Keys) && KeysSafe(lang.normalize, req.index) && Injective(ids)
    ensures var rows := RowsFor(lang, ids, minConfidence, req, keys);
            && (forall i | 0 <= i < |rows| :: rows[i].dish in ids)
            && RankingStore.DistinctDishes(ByDish(ids, rows))
  {
    var policy := Policy(minConfidence, false);
    ResolvedExist(lang, ids.Keys, req.index, Analyze(lang, policy, req, keys));
    InsertsOncePerDish(lang, policy, req, keys, ids.Keys);
    SameUniqueness(ids, RowsFor(lang, ids, minConfidence, req, keys));
  }

  lemma {:induction false} RowOf(resolved: seq<(Evidence.DishId, Evidence.Mention)>, i: nat)
    requires i < |resolved| && RankingStore.DistinctDishes(resolved)
    ensures resolved[i].0 in RankingStore.RowsFrom(resolved) && RankingStore.RowsFrom(resolved)[resolved[i].0] == resolved[i].1
  {
    var n := |resolved| - 1;
    if i < n { RowOf(resolved[..n], i); }
  }

  /** What is stored for a mention: its own sentiment, confidence, price and attributes, under the review's restaurant. */
  lemma StoredAsAnalysed(db: Evidence.Db, batch: Evidence.BatchId, id: Evidence.ReviewId, ids: DishIds, rows: seq<Resolved>, i: nat,
                         isSpam: bool, nearDuplicate: bool)
    requires id in db.reviews && i < |rows| && forall j | 0 <= j < |rows| :: rows[j].dish in ids
    requires RankingStore.DistinctDishes(ByDish(ids, rows))
    ensures var key, m := Evidence.MentionKey(id, ids[rows[i].dish]), rows[i].mention;
            var after := RankingView.Process(db, batch, id, RankingView.Analysis(RankingStore.RowsFrom(ByDish(ids, rows)), isSpam, nearDuplicate));
            && key in after.mentions
            && after.mentions[key] == Evidence.Mention(db.reviews[id].restaurant, m.sentiment, m.confidence, m.price, m.attributes, false)
  {
    RowOf(ByDish(ids, rows), i);
    RankingRuns.ProcessReplacesExactly(db, batch, id, RankingView.Analysis(RankingStore.RowsFrom(ByDish(ids, rows)), isSpam, nearDuplicate),
                                       Evidence.MentionKey(id, ids[rows[i].dish]));
  }

  /**
   * Analysing a review by the heuristic and storing the result always succeeds, as long as the alias
   * index has no clash: the transaction is never rolled back, and the ranking invariant is kept.
   */
  method ProcessByHeuristic(store: RankingStore.Store, lang: Lang, ids: DishIds, minConfidence: real, req: Request, keys: seq<string>,
                            batch: Evidence.BatchId, id: Evidence.ReviewId, isSpam: bool, nearDuplicate: bool)
    returns (ok: bool)
    requires Extraction.Lists(keys, req.index) && Sound(req.index, ids.Keys) && KeysSafe(lang.normalize, req.index) && Injective(ids)
    requires store.cfg.Usable() && RankingView.Inv(store.cfg, store.View()) && id in store.reviews
    requires forall s | s in ids :: ids[s] in store.dishes
    modifies store`reviews, store`mentions, store`dirty
    ensures ok && RankingView.Inv(store.cfg, store.View())
    ensures var rows := RowsFor(lang, ids, minConfidence, req, keys);
            && (forall i | 0 <= i < |rows| :: rows[i].dish in ids)
            && store.View() == RankingView.Process(old(store.View()), batch, id,
                 RankingView.Analysis(RankingStore.RowsFrom(ByDish(ids, rows)), isSpam, nearDuplicate))
  {
    var kept := AnalyzeReview(lang, Policy(minConfidence, false), req, keys);
    var rows := ResolveAll(lang, ids.Keys, req.index, false, kept).0;
    HeuristicFits(lang, ids, minConfidence, req, keys);
    ok := store.ProcessReview(batch, id, ByDish(ids, rows), isSpam, nearDuplicate);
  }
}
