/** The tables as the workers and endpoints update them, each method one transaction. */
module RankingStore {
  import opened Wrappers
  import Scoring
  import opened Evidence
  import opened RankingView
  import opened RankingRuns
  import opened RankingDrain

  // ---- what the loops have done so far ----

  ghost function FreshScores(cfg: Config, r: map<ReviewId, Review>, m: map<MentionKey, Mention>, live: set<Pair>): map<Pair, ScoreRow>
    requires cfg.Usable()
  {
    map p | p in live :: ScratchScore(cfg, EvidenceOf(r, m, p))
  }

  ghost function FreshCounts(r: map<ReviewId, Review>, m: map<MentionKey, Mention>, live: set<Pair>): map<Pair, CountRow> {
    map p | p in live :: ScratchCounts(EvidenceOf(r, m, p))
  }

  function Live(restaurants: set<RestaurantId>, pairs: set<Pair>): set<Pair> {
    set p | p in pairs && p.restaurant in restaurants
  }

  ghost function Refreshed(dishes: map<DishId, DishRow>, scores: map<Pair, ScoreRow>, touched: set<DishId>): map<DishId, DishRow> {
    map d | d in dishes :: if d in touched then Aggregate(RowsOf(scores, d)) else dishes[d]
  }

  function DishesOf(pairs: set<Pair>): set<DishId> { set p | p in pairs :: p.dish }

  lemma RecomputeIs(cfg: Config, db: Db, pairs: set<Pair>)
    requires cfg.Usable()
    ensures var live := Live(db.restaurants, pairs);
            var scores := db.scores + FreshScores(cfg, db.reviews, db.mentions, live);
            Recompute(cfg, db, pairs)
            == db.(scores := scores, counts := db.counts + FreshCounts(db.reviews, db.mentions, live),
                   dishes := Refreshed(db.dishes, scores, DishesOf(live)))
  {
  }

  lemma AddEntry<K, V>(base: map<K, V>, added: map<K, V>, k: K, v: V)
    ensures base + added[k := v] == (base + added)[k := v]
  {
  }

  lemma FreshScoresAdd(cfg: Config, r: map<ReviewId, Review>, m: map<MentionKey, Mention>, live: set<Pair>, p: Pair)
    requires cfg.Usable()
    ensures FreshScores(cfg, r, m, live + {p}) == FreshScores(cfg, r, m, live)[p := ScratchScore(cfg, EvidenceOf(r, m, p))]
  {
    var a, b, row := FreshScores(cfg, r, m, live + {p}), FreshScores(cfg, r, m, live), ScratchScore(cfg, EvidenceOf(r, m, p));
    assert a[p] == row;
    forall q | q in live ensures a[q] == b[q] {}
    OneEntryMore(a, b, p, row);
  }

  lemma OneEntryMore<K, V>(a: map<K, V>, b: map<K, V>, k: K, v: V)
    requires a.Keys == b.Keys + {k} && a[k] == v && forall q | q in b.Keys && q != k :: a[q] == b[q]
    ensures a == b[k := v]
  {
  }

  lemma FreshCountsAdd(r: map<ReviewId, Review>, m: map<MentionKey, Mention>, live: set<Pair>, p: Pair)
    ensures FreshCounts(r, m, live + {p}) == FreshCounts(r, m, live)[p := ScratchCounts(EvidenceOf(r, m, p))]
  {
  }

  lemma LiveAdd(restaurants: set<RestaurantId>, pairs: set<Pair>, rest: set<Pair>, p: Pair)
    requires p in rest && rest <= pairs
    ensures Live(restaurants, pairs - (rest - {p}))
            == Live(restaurants, pairs - rest) + (if p.restaurant in restaurants then {p} else {})
  {
  }

  lemma RefreshedAdd(dishes: map<DishId, DishRow>, scores: map<Pair, ScoreRow>, touched: set<DishId>, d: DishId)
    ensures Refreshed(dishes, scores, touched + {d})
            == (if d in dishes then Refreshed(dishes, scores, touched)[d := Aggregate(RowsOf(scores, d))]
                else Refreshed(dishes, scores, touched))
  {
  }

  function AddDish(a: DishRow, b: DishRow): DishRow {
    DishRow(a.mentionCount + b.mentionCount, a.restaurantCount + b.restaurantCount)
  }

  lemma AggregateTake(rows: map<Pair, ScoreRow>, p: Pair, total: DishRow)
    requires p in rows
    ensures AddDish(Aggregate(rows - {p}), AddRow(total, rows[p])) == AddDish(Aggregate(rows), total)
  {
    AggregateRemove(rows, p);
  }

  /** `total` is what has been added up when only the rows of `left` are still to be read. */
  ghost predicate AddedUp(rows: map<Pair, ScoreRow>, left: set<Pair>, total: DishRow) {
    left <= rows.Keys && AddDish(Aggregate(rows - (rows.Keys - left)), total) == Aggregate(rows)
  }

  lemma NoneAddedUp(rows: map<Pair, ScoreRow>)
    ensures AddedUp(rows, rows.Keys, DishRow(0, 0))
  {
    assert rows - (rows.Keys - rows.Keys) == rows;
  }

  lemma AddUp(rows: map<Pair, ScoreRow>, left: set<Pair>, total: DishRow, p: Pair)
    requires AddedUp(rows, left, total) && p in left
    ensures AddedUp(rows, left - {p}, AddRow(total, rows[p]))
  {
    AggregateTake(rows - (rows.Keys - left), p, total);
    assert rows - (rows.Keys - left) - {p} == rows - (rows.Keys - (left - {p}));
  }

  lemma AllAddedUp(rows: map<Pair, ScoreRow>, total: DishRow)
    requires AddedUp(rows, {}, total)
    ensures total == Aggregate(rows)
  {
    assert rows - (rows.Keys - {}) == map[];
  }

  /** The two sums over a dish's score rows, read in any order. */
  method SumRows(rows: map<Pair, ScoreRow>) returns (total: DishRow)
    ensures total == Aggregate(rows)
  {
    var left := rows.Keys;
    total := DishRow(0, 0);
    NoneAddedUp(rows);
    while left != {}
      invariant AddedUp(rows, left, total)
      decreases |left|
    {
      var p :| p in left;
      AddUp(rows, left, total, p);
      total := AddRow(total, rows[p]);
      left := left - {p};
    }
    AllAddedUp(rows, total);
  }

  /** The rows an analysis inserts; later mentions of a dish would violate UNIQUE(review, dish). */
  function RowsFrom(resolved: seq<(DishId, Mention)>): (rows: map<DishId, Mention>)
    ensures forall d :: d in rows <==> exists i :: 0 <= i < |resolved| && resolved[i].0 == d
  {
    if resolved == [] then map[] else
      var n := |resolved| - 1;
      RowsFrom(resolved[..n])[resolved[n].0 := resolved[n].1]
  }

  predicate DistinctDishes(resolved: seq<(DishId, Mention)>) {
    forall i, j :: 0 <= i < j < |resolved| ==> resolved[i].0 != resolved[j].0
  }

  function PairsOf(rows: map<DishId, Mention>, restaurant: RestaurantId): set<Pair> {
    set d | d in rows :: Pair(d, restaurant)
  }

  lemma OneMore(resolved: seq<(DishId, Mention)>, i: nat)
    requires i < |resolved|
    ensures RowsFrom(resolved[..i + 1]) == RowsFrom(resolved[..i])[resolved[i].0 := resolved[i].1]
    ensures DistinctDishes(resolved[..i + 1]) <==> DistinctDishes(resolved[..i]) && resolved[i].0 !in RowsFrom(resolved[..i])
    ensures DistinctDishes(resolved) ==> DistinctDishes(resolved[..i + 1])
  {
    assert resolved[..i + 1][..i] == resolved[..i];
  }

  /** The mentions once the review's are replaced by `rows`. */
  function Replaced(mentions: map<MentionKey, Mention>, id: ReviewId, restaurant: RestaurantId, rows: map<DishId, Mention>): map<MentionKey, Mention> {
    Without(mentions, id) + Inserted(id, restaurant, rows)
  }

  lemma InsertedRow(id: ReviewId, restaurant: RestaurantId, rows: map<DishId, Mention>, d: DishId, m: Mention)
    ensures Inserted(id, restaurant, rows[d := m]) == Inserted(id, restaurant, rows)[MentionKey(id, d) := m.(restaurant := restaurant)]
  {
  }

  lemma InsertRow(mentions: map<MentionKey, Mention>, id: ReviewId, restaurant: RestaurantId, rows: map<DishId, Mention>, d: DishId, m: Mention)
    ensures Replaced(mentions, id, restaurant, rows[d := m])
            == Replaced(mentions, id, restaurant, rows)[MentionKey(id, d) := m.(restaurant := restaurant)]
    ensures MentionKey(id, d) in Replaced(mentions, id, restaurant, rows) <==> d in rows
  {
    InsertedRow(id, restaurant, rows, d, m);
    AddEntry(Without(mentions, id), Inserted(id, restaurant, rows), MentionKey(id, d), m.(restaurant := restaurant));
  }

  lemma InsertPair(rows: map<DishId, Mention>, restaurant: RestaurantId, d: DishId, m: Mention)
    ensures PairsOf(rows[d := m], restaurant) == PairsOf(rows, restaurant) + {Pair(d, restaurant)}
  {
    assert d in rows[d := m];
    forall e | e in rows ensures Pair(e, restaurant) in PairsOf(rows[d := m], restaurant) { assert e in rows[d := m]; }
  }

  /** The tables after the first `i` mentions went in, none of them naming a dish twice. */
  ghost predicate Upto(mentions: map<MentionKey, Mention>, id: ReviewId, restaurant: RestaurantId, resolved: seq<(DishId, Mention)>,
                       i: nat, rows: map<MentionKey, Mention>, pairs: set<Pair>)
    requires i <= |resolved|
  {
    && DistinctDishes(resolved[..i])
    && rows == Replaced(mentions, id, restaurant, RowsFrom(resolved[..i]))
    && pairs == Pairs(mentions, id) + PairsOf(RowsFrom(resolved[..i]), restaurant)
  }

  lemma UptoNext(mentions: map<MentionKey, Mention>, id: ReviewId, restaurant: RestaurantId, resolved: seq<(DishId, Mention)>,
                 i: nat, rows: map<MentionKey, Mention>, pairs: set<Pair>)
    requires i < |resolved| && Upto(mentions, id, restaurant, resolved, i, rows, pairs)
    ensures MentionKey(id, resolved[i].0) in rows ==> !DistinctDishes(resolved)
    ensures MentionKey(id, resolved[i].0) !in rows ==>
              Upto(mentions, id, restaurant, resolved, i + 1,
                   rows[MentionKey(id, resolved[i].0) := resolved[i].1.(restaurant := restaurant)],
                   pairs + {Pair(resolved[i].0, restaurant)})
  {
    OneMore(resolved, i);
    InsertRow(mentions, id, restaurant, RowsFrom(resolved[..i]), resolved[i].0, resolved[i].1);
    InsertPair(RowsFrom(resolved[..i]), restaurant, resolved[i].0, resolved[i].1);
  }

  lemma UptoNone(mentions: map<MentionKey, Mention>, id: ReviewId, restaurant: RestaurantId, resolved: seq<(DishId, Mention)>)
    ensures Upto(mentions, id, restaurant, resolved, 0, Without(mentions, id), Pairs(mentions, id))
  {
    assert RowsFrom(resolved[..0]) == map[];
    assert Inserted(id, restaurant, map[]) == map[];
  }

  /** Delete the review's mentions and insert the new ones, up to the first that breaks UNIQUE(review, dish). */
  method ReplaceMentions(mentions: map<MentionKey, Mention>, id: ReviewId, restaurant: RestaurantId, resolved: seq<(DishId, Mention)>)
    returns (ok: bool, rows: map<MentionKey, Mention>, pairs: set<Pair>)
    ensures ok <==> DistinctDishes(resolved)
    ensures ok ==> Upto(mentions, id, restaurant, resolved, |resolved|, rows, pairs)
  {
    ok, rows, pairs := true, Without(mentions, id), Pairs(mentions, id);
    UptoNone(mentions, id, restaurant, resolved);
    for i := 0 to |resolved|
      invariant Upto(mentions, id, restaurant, resolved, i, rows, pairs)
    {
      var (d, m) := resolved[i];
      UptoNext(mentions, id, restaurant, resolved, i, rows, pairs);
      if MentionKey(id, d) in rows {
        return false, rows, pairs;
      }
      rows := rows[MentionKey(id, d) := m.(restaurant := restaurant)];
      pairs := pairs + {Pair(d, restaurant)};
    }
    assert resolved[..|resolved|] == resolved;
  }

  lemma UptoAll(db: Db, batch: BatchId, id: ReviewId, resolved: seq<(DishId, Mention)>, a: Analysis,
                rows: map<MentionKey, Mention>, pairs: set<Pair>)
    requires id in db.reviews && Upto(db.mentions, id, db.reviews[id].restaurant, resolved, |resolved|, rows, pairs)
    requires a.rows == RowsFrom(resolved)
    ensures Process(db, batch, id, a)
            == db.(reviews := db.reviews[id := Annotated(db.reviews[id], a)], mentions := rows,
                   dirty := db.dirty[batch := BatchPairs(db, batch) + pairs])
  {
    assert resolved[..|resolved|] == resolved;
    assert Reported(db, id, a) == pairs;
  }

  method TakeUpTo(pairs: set<Pair>, limit: nat) returns (taken: set<Pair>)
    ensures taken <= pairs && |taken| <= limit
    ensures |pairs| <= limit ==> taken == pairs
    ensures |pairs| > limit ==> |taken| == limit
  {
    taken := {};
    var rest := pairs;
    while rest != {} && |taken| < limit
      invariant taken + rest == pairs && taken !! rest
      invariant |taken| <= limit
      decreases |rest|
    {
      var p :| p in rest;
      taken, rest := taken + {p}, rest - {p};
    }
    assert |pairs| == |taken| + |rest|;
  }

  class Store {
    const cfg: Config
    var restaurants: set<RestaurantId>
    var reviews: map<ReviewId, Review>
    var mentions: map<MentionKey, Mention>
    var scores: map<Pair, ScoreRow>
    var counts: map<Pair, CountRow>
    var dishes: map<DishId, DishRow>
    var dirty: map<BatchId, set<Pair>>
    var pairTasks: multiset<set<Pair>>
    var reviewTasks: multiset<ReviewId>

    function View(): Db
      reads this
    {
      Db(restaurants, reviews, mentions, scores, counts, dishes, dirty, pairTasks, reviewTasks)
    }

    constructor (cfg: Config, restaurants: set<RestaurantId>, dishIds: set<DishId>)
      requires cfg.Usable()
      ensures this.cfg == cfg && Initial(View()) && this.restaurants == restaurants && dishes.Keys == dishIds
    {
      this.cfg, this.restaurants := cfg, restaurants;
      reviews, mentions, scores, counts := map[], map[], map[], map[];
      dishes := map d | d in dishIds :: DishRow(0, 0);
      dirty, pairTasks, reviewTasks := map[], multiset{}, multiset{};
    }

    /** The query returns its rows in no particular order. */
    method LoadObservations(p: Pair) returns (obs: seq<Scoring.Observation>, ids: seq<MentionKey>)
      ensures Lists(ids, EvidenceOf(reviews, mentions, p).Keys) && obs == Pick(ids, EvidenceOf(reviews, mentions, p))
      ensures forall k :: k in ids <==>
                k in mentions && k.dish == p.dish && mentions[k].restaurant == p.restaurant
                && k.review in reviews && reviews[k.review].status == Published && !reviews[k.review].isDuplicate
    {
      ghost var ev := EvidenceOf(reviews, mentions, p);
      obs, ids := [], [];
      var rest := mentions.Keys;
      while rest != {}
        invariant rest <= mentions.Keys
        invariant Lists(ids, ev.Keys - rest)
        invariant obs == Pick(ids, ev)
        decreases |rest|
      {
        var k :| k in rest;
        rest := rest - {k};
        var seen := Seen(reviews, mentions, k, p);
        if seen.Some? {
          PickAppend(ids, [k], ev);
          obs, ids := obs + [seen.value], ids + [k];
        }
      }
      forall k { EvidenceIff(reviews, mentions, k, p); }
    }

    /** Rescore one pair. The clock, the city prior and the city median may be anything. */
    method Rescore(p: Pair, now: real, prior: Option<real>, cityMedian: Option<real>)
      requires cfg.Usable()
      modifies this`scores, this`counts
      ensures scores == old(scores)[p := ScratchScore(cfg, EvidenceOf(reviews, mentions, p))]
      ensures counts == old(counts)[p := ScratchCounts(EvidenceOf(reviews, mentions, p))]
    {
      var obs, ids := LoadObservations(p);
      ScratchIsCanonical(cfg, EvidenceOf(reviews, mentions, p), ids, now, prior, cityMedian);
      var result := Scoring.ComputeDishScore(cfg.At(now, prior, cityMedian), obs);
      scores := scores[p := Own(result)];
      counts := counts[p := CountsOf(obs)];
    }

    method RefreshDishAggregate(d: DishId)
      modifies this`dishes
      ensures dishes == if d in old(dishes) then old(dishes)[d := Aggregate(RowsOf(scores, d))] else old(dishes)
    {
      var total := SumRows(RowsOf(scores, d));
      if d in dishes {
        dishes := dishes[d := total];
      }
    }

    /** Recompute the given pairs and the aggregates of their dishes. */
    method RecomputePairs(pairs: set<Pair>)
      requires cfg.Usable()
      modifies this`scores, this`counts, this`dishes
      ensures View() == Recompute(cfg, old(View()), pairs)
    {
      var live := RescoreAll(pairs);
      RefreshAll(DishesOf(live));
      RecomputeIs(cfg, old(View()), pairs);
    }

    method RefreshAll(touched: set<DishId>)
      modifies this`dishes
      ensures dishes == Refreshed(old(dishes), scores, touched)
    {
      var rest := touched;
      assert dishes == Refreshed(dishes, scores, {});
      ghost var done := {};
      while rest != {}
        invariant rest <= touched && done == touched - rest
        invariant dishes == Refreshed(old(dishes), scores, done)
        decreases |rest|
      {
        var d :| d in rest;
        rest := rest - {d};
        RefreshedAdd(old(dishes), scores, done, d);
        done := done + {d};
        RefreshDishAggregate(d);
      }
      assert done == touched;
    }

    method RescoreAll(pairs: set<Pair>) returns (live: set<Pair>)
      requires cfg.Usable()
      modifies this`scores, this`counts
      ensures live == Live(restaurants, pairs)
      ensures scores == old(scores) + FreshScores(cfg, reviews, mentions, live)
      ensures counts == old(counts) + FreshCounts(reviews, mentions, live)
    {
      var rest := pairs;
      live := {};
      while rest != {}
        invariant rest <= pairs && live == Live(restaurants, pairs - rest)
        invariant scores == old(scores) + FreshScores(cfg, reviews, mentions, live)
        invariant counts == old(counts) + FreshCounts(reviews, mentions, live)
        decreases |rest|
      {
        var p :| p in rest;
        LiveAdd(restaurants, pairs, rest, p);
        rest := rest - {p};
        if p.restaurant in restaurants {
          var now: real, prior: Option<real>, cityMedian: Option<real> := *, *, *;
          Rescore(p, now, prior, cityMedian);
          AddRows(old(scores), old(counts), live, p);
          live := live + {p};
        }
      }
      assert pairs - rest == pairs;
    }

    lemma AddRows(scores: map<Pair, ScoreRow>, counts: map<Pair, CountRow>, live: set<Pair>, p: Pair)
      requires cfg.Usable()
      ensures scores + FreshScores(cfg, reviews, mentions, live + {p})
              == (scores + FreshScores(cfg, reviews, mentions, live))[p := ScratchScore(cfg, EvidenceOf(reviews, mentions, p))]
      ensures counts + FreshCounts(reviews, mentions, live + {p})
              == (counts + FreshCounts(reviews, mentions, live))[p := ScratchCounts(EvidenceOf(reviews, mentions, p))]
    {
      FreshScoresAdd(cfg, reviews, mentions, live, p);
      FreshCountsAdd(reviews, mentions, live, p);
      AddEntry(scores, FreshScores(cfg, reviews, mentions, live), p, ScratchScore(cfg, EvidenceOf(reviews, mentions, p)));
      AddEntry(counts, FreshCounts(reviews, mentions, live), p, ScratchCounts(EvidenceOf(reviews, mentions, p)));
    }

    // ---- the operations ----

    /** Replace the review's mentions, unless two of them name one dish: then everything is rolled back. */
    method PersistAnalysis(batch: BatchId, id: ReviewId, resolved: seq<(DishId, Mention)>, isSpam: bool, nearDuplicate: bool)
      returns (ok: bool)
      requires id in reviews
      modifies this`reviews, this`mentions, this`dirty
      ensures ok <==> DistinctDishes(resolved)
      ensures View() == if ok then Process(old(View()), batch, id, Analysis(RowsFrom(resolved), isSpam, nearDuplicate)) else old(View())
    {
      var review := reviews[id];
      var rows, pairs;
      ok, rows, pairs := ReplaceMentions(mentions, id, review.restaurant, resolved);
      if ok {
        UptoAll(View(), batch, id, resolved, Analysis(RowsFrom(resolved), isSpam, nearDuplicate), rows, pairs);
        mentions := rows;
        reviews := reviews[id := review.(isDuplicate := review.isDuplicate || nearDuplicate,
                                         status := if isSpam && review.source.User? then Flagged else review.status)];
        dirty := dirty[batch := (if batch in dirty then dirty[batch] else {}) + pairs];
      }
    }

    /** Analyse one review inside a batch. A failed insert leaves no trace. */
    method ProcessReview(batch: BatchId, id: ReviewId, resolved: seq<(DishId, Mention)>, isSpam: bool, nearDuplicate: bool)
      returns (ok: bool)
      requires cfg.Usable() && Inv(cfg, View()) && id in reviews
      requires forall i :: 0 <= i < |resolved| ==> resolved[i].0 in dishes
      modifies this`reviews, this`mentions, this`dirty
      ensures ok <==> DistinctDishes(resolved)
      ensures View() == if ok then Process(old(View()), batch, id, Analysis(RowsFrom(resolved), isSpam, nearDuplicate)) else old(View())
      ensures Inv(cfg, View())
    {
      if DistinctDishes(resolved) {
        ProcessKeeps(cfg, View(), batch, id, Analysis(RowsFrom(resolved), isSpam, nearDuplicate));
      }
      ok := PersistAnalysis(batch, id, resolved, isSpam, nearDuplicate);
    }

    /** The batch is over: hand its dirty pairs to one recompute task, if there are any. */
    method FinishBatch(batch: BatchId)
      requires cfg.Usable() && Inv(cfg, View()) && batch in dirty
      modifies this`dirty, this`pairTasks
      ensures View() == EndBatch(old(View()), batch)
      ensures Inv(cfg, View())
    {
      EndBatchKeeps(cfg, View(), batch);
      if dirty[batch] != {} {
        pairTasks := pairTasks + multiset{dirty[batch]};
      }
      dirty := dirty - {batch};
    }

    method DecideModeration(id: ReviewId, action: Action)
      requires cfg.Usable() && Inv(cfg, View()) && id in reviews
      modifies this`reviews, this`reviewTasks
      ensures View() == Moderate(old(View()), id, action)
      ensures Inv(cfg, View())
    {
      ModerateKeeps(cfg, View(), id, action);
      var review := reviews[id];
      if action.Dismiss? {
        assert reviews[id := review] == reviews;
      } else {
        var status := match action case Publish => Published case Reject => Rejected case _ => Flagged;
        reviews := reviews[id := review.(status := status)];
      }
      reviewTasks := reviewTasks + multiset{id};
    }

    method MergeRestaurants(target: RestaurantId, duplicate: RestaurantId) returns (ok: bool)
      requires cfg.Usable() && Inv(cfg, View())
      modifies this`reviews, this`mentions, this`scores, this`counts
      ensures ok <==> target in restaurants && duplicate in restaurants && target != duplicate
      ensures View() == if ok then Merge(old(View()), target, duplicate) else old(View())
      ensures Inv(cfg, View())
    {
      if target !in restaurants || duplicate !in restaurants || target == duplicate {
        return false;
      }
      MergeKeeps(cfg, View(), target, duplicate);
      reviews := map r | r in reviews ::
        if reviews[r].restaurant == duplicate then reviews[r].(restaurant := target) else reviews[r];
      mentions := Moved(mentions, target, duplicate);
      counts := map p | p in counts && p.restaurant != duplicate :: counts[p];
      scores := map p | p in scores && p.restaurant != duplicate && p.restaurant != target :: scores[p];
      return true;
    }

    /** The queued task for the pairs a batch reported. */
    method RunPairsTask(pairs: set<Pair>)
      requires cfg.Usable() && Inv(cfg, View()) && pairs in pairTasks
      modifies this`scores, this`counts, this`dishes, this`pairTasks
      ensures View() == Step(cfg, old(View()), RunPairs(pairs))
      ensures Inv(cfg, View())
    {
      RunPairsKeeps(cfg, View(), pairs);
      pairTasks := pairTasks - multiset{pairs};
      RecomputePairs(pairs);
    }

    /** The queued task after a moderation decision or a deletion. */
    method RunReviewTask(id: ReviewId)
      requires cfg.Usable() && Inv(cfg, View()) && id in reviewTasks
      modifies this`scores, this`counts, this`dishes, this`reviewTasks
      ensures View() == Step(cfg, old(View()), RunReview(id))
      ensures Inv(cfg, View())
    {
      RunReviewKeeps(cfg, View(), id);
      reviewTasks := reviewTasks - multiset{id};
      RecomputePairs(Pairs(mentions, id));
    }

    /** `stale` is what the clock makes stale; of the missing pairs the query takes any `limit`. */
    method NightlySweep(stale: set<Pair>, limit: nat) returns (missing: set<Pair>)
      requires cfg.Usable() && Inv(cfg, View()) && stale <= scores.Keys
      modifies this`scores, this`counts, this`dishes
      ensures Enabled(old(View()), Sweep(stale, missing))
      ensures View() == Step(cfg, old(View()), Sweep(stale, missing))
      ensures limit >= |MissingPairs(old(View()))| ==> missing == MissingPairs(old(View())) && MissingPairs(View()) == {}
      ensures Inv(cfg, View())
    {
      missing := TakeUpTo(MissingPairs(View()), limit);
      forall p | p in missing ensures Missing(View(), p) { MissingPairsAre(View(), p); }
      SweepKeeps(cfg, View(), stale, missing);
      MissingShrinks(cfg, View(), stale + missing);
      RecomputePairs(stale + missing);
    }
  }
}
