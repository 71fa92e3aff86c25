/** Every operation keeps the invariant, so every run does; and what draining the queues yields. */
module RankingRuns {
  import opened Evidence
  import opened RankingView

  // ---- operations that change evidence ----

  ghost predicate SameEvidence(before: Db, after: Db, p: Pair) {
    && EvidenceOf(before.reviews, before.mentions, p) == EvidenceOf(after.reviews, after.mentions, p)
    && (HasMention(before.mentions, p) <==> HasMention(after.mentions, p))
  }

  /** What it takes to leave the score tables alone while evidence changes. */
  lemma EvidenceChange(cfg: Config, before: Db, after: Db)
    requires cfg.Usable() && Inv(cfg, before) && WellFormed(after)
    requires after.scores == before.scores && after.counts == before.counts && after.dishes == before.dishes
    requires forall p | Covered(before, p) :: Covered(after, p)
    requires forall p :: SameEvidence(before, after, p) || Covered(after, p)
    ensures Inv(cfg, after)
  {
    forall p ensures Agrees(cfg, after, p) || Covered(after, p) {
      assert SameEvidence(before, after, p) || Covered(after, p);
    }
    forall d ensures DishAgrees(after, d) || DishCovered(after, d) {
      if !DishAgrees(before, d) {
        var p: Pair :| p.dish == d && Covered(before, p);
        assert Covered(after, p);
      }
    }
  }

  /** The queues may gain only known pairs. */
  lemma QueuesKnown(before: Db, after: Db, gained: set<Pair>)
    requires WellFormed(before) && before.restaurants <= after.restaurants && before.dishes.Keys <= after.dishes.Keys
    requires forall p | p in gained :: Known(after, p)
    requires forall b | b in after.dirty :: after.dirty[b] <= BatchPairs(before, b) + gained
    requires forall t | t in after.pairTasks :: t in before.pairTasks || exists b :: b in before.dirty && before.dirty[b] == t
    ensures forall p | InBatch(after, p) || InPairTask(after, p) :: Known(after, p)
  {
    forall p | InBatch(after, p) || InPairTask(after, p) ensures Known(after, p) {
      if b :| b in after.dirty && p in after.dirty[b] {
        assert p in gained || p in BatchPairs(before, b);
        assert p in gained || InBatch(before, p);
      } else {
        var t :| t in after.pairTasks && p in t;
        assert InPairTask(before, p) || InBatch(before, p);
      }
    }
  }

  lemma ProcessedMention(db: Db, batch: BatchId, id: ReviewId, a: Analysis, k: MentionKey)
    requires id in db.reviews && k in Process(db, batch, id, a).mentions
    ensures k.review != id ==> k in db.mentions && Process(db, batch, id, a).mentions[k] == db.mentions[k]
    ensures k.review == id ==> k.dish in a.rows && Process(db, batch, id, a).mentions[k].restaurant == db.reviews[id].restaurant
  {
  }

  /** The review ends with exactly the rows of the analysis, and no other review's mentions change. */
  lemma ProcessReplacesExactly(db: Db, batch: BatchId, id: ReviewId, a: Analysis, k: MentionKey)
    requires id in db.reviews
    ensures var after, restaurant := Process(db, batch, id, a), db.reviews[id].restaurant;
            if k.review == id
            then (k in after.mentions <==> k.dish in a.rows)
                 && (k in after.mentions ==> after.mentions[k] == a.rows[k.dish].(restaurant := restaurant))
            else (k in after.mentions <==> k in db.mentions) && (k in db.mentions ==> after.mentions[k] == db.mentions[k])
  {
  }

  lemma ProcessWellFormed(db: Db, batch: BatchId, id: ReviewId, a: Analysis)
    requires WellFormed(db) && Enabled(db, ProcessReview(batch, id, a))
    ensures WellFormed(Process(db, batch, id, a))
  {
    var after := Process(db, batch, id, a);
    forall k | k in after.mentions ensures MentionKnown(after, k) { ProcessedMentionKnown(db, batch, id, a, k); }
    ProcessQueues(db, batch, id, a);
    ProcessRowsKnown(db, batch, id, a);
    AllKnown(after);
  }

  lemma AllKnown(db: Db)
    requires forall k | k in db.mentions :: MentionKnown(db, k)
    requires forall r | r in db.reviews :: db.reviews[r].restaurant in db.restaurants
    requires forall p | p in db.scores :: p in db.counts && Known(db, p)
    requires forall p | InBatch(db, p) || InPairTask(db, p) :: Known(db, p)
    ensures WellFormed(db)
  {
    forall k | k in db.mentions
      ensures k.review in db.reviews && db.mentions[k].restaurant in db.restaurants && k.dish in db.dishes
    {
      assert MentionKnown(db, k);
    }
  }

  lemma ProcessRowsKnown(db: Db, batch: BatchId, id: ReviewId, a: Analysis)
    requires WellFormed(db) && id in db.reviews
    ensures var after := Process(db, batch, id, a);
            && (forall r | r in after.reviews :: after.reviews[r].restaurant in after.restaurants)
            && (forall p | p in after.scores :: p in after.counts && Known(after, p))
  {
  }

  predicate MentionKnown(db: Db, k: MentionKey)
    requires k in db.mentions
  {
    k.review in db.reviews && db.mentions[k].restaurant in db.restaurants && k.dish in db.dishes
  }

  lemma ProcessedMentionKnown(db: Db, batch: BatchId, id: ReviewId, a: Analysis, k: MentionKey)
    requires WellFormed(db) && Enabled(db, ProcessReview(batch, id, a)) && k in Process(db, batch, id, a).mentions
    ensures MentionKnown(Process(db, batch, id, a), k)
  {
    ProcessedMention(db, batch, id, a, k);
  }

  lemma ProcessQueues(db: Db, batch: BatchId, id: ReviewId, a: Analysis)
    requires WellFormed(db) && Enabled(db, ProcessReview(batch, id, a))
    ensures var after := Process(db, batch, id, a);
            forall p | InBatch(after, p) || InPairTask(after, p) :: Known(after, p)
  {
    var after := Process(db, batch, id, a);
    forall p | InBatch(after, p) || InPairTask(after, p) ensures Known(after, p) { ProcessQueued(db, batch, id, a, p); }
  }

  lemma ProcessQueued(db: Db, batch: BatchId, id: ReviewId, a: Analysis, p: Pair)
    requires WellFormed(db) && Enabled(db, ProcessReview(batch, id, a))
    requires InBatch(Process(db, batch, id, a), p) || InPairTask(Process(db, batch, id, a), p)
    ensures Known(db, p)
  {
    if InPairTask(Process(db, batch, id, a), p) {
      assert InPairTask(db, p);
    } else {
      ProcessInBatch(db, batch, id, a, p);
      if p in Reported(db, id, a) { ReportedKnown(db, id, a, p); }
    }
  }

  lemma ProcessInBatch(db: Db, batch: BatchId, id: ReviewId, a: Analysis, p: Pair)
    requires id in db.reviews && InBatch(Process(db, batch, id, a), p)
    ensures InBatch(db, p) || p in Reported(db, id, a)
  {
    var after := Process(db, batch, id, a);
    var b :| b in after.dirty && p in after.dirty[b];
    if p !in Reported(db, id, a) { assert b in db.dirty && p in db.dirty[b]; }
  }

  lemma ReportedKnown(db: Db, id: ReviewId, a: Analysis, p: Pair)
    requires WellFormed(db) && id in db.reviews && a.rows.Keys <= db.dishes.Keys && p in Reported(db, id, a)
    ensures Known(db, p)
  {
  }

  lemma ProcessSeen(db: Db, batch: BatchId, id: ReviewId, a: Analysis, p: Pair, k: MentionKey)
    requires id in db.reviews && p !in Reported(db, id, a)
    ensures var after := Process(db, batch, id, a);
            && (Touches(db.mentions, k, p) <==> Touches(after.mentions, k, p))
            && Seen(db.reviews, db.mentions, k, p) == Seen(after.reviews, after.mentions, k, p)
  {
    var after := Process(db, batch, id, a);
    if k in after.mentions { ProcessedMention(db, batch, id, a, k); }
    if k.review == id {
      if k in db.mentions { assert Pair(k.dish, db.mentions[k].restaurant) in Pairs(db.mentions, id); }
      if k in after.mentions { assert Pair(k.dish, db.reviews[id].restaurant) in Reported(db, id, a); }
    } else {
      assert k in db.mentions ==> k in after.mentions;
    }
  }

  lemma ProcessEvidence(db: Db, batch: BatchId, id: ReviewId, a: Analysis, p: Pair)
    requires id in db.reviews && p !in Reported(db, id, a)
    ensures SameEvidence(db, Process(db, batch, id, a), p)
  {
    var after := Process(db, batch, id, a);
    forall k
      ensures Touches(db.mentions, k, p) <==> Touches(after.mentions, k, p)
      ensures Seen(db.reviews, db.mentions, k, p) == Seen(after.reviews, after.mentions, k, p)
    {
      ProcessSeen(db, batch, id, a, p, k);
    }
    EvidenceEqual(db.reviews, db.mentions, after.reviews, after.mentions, p);
  }

  lemma ProcessCovered(db: Db, batch: BatchId, id: ReviewId, a: Analysis, p: Pair)
    requires id in db.reviews
    requires Covered(db, p) || p in Reported(db, id, a)
    ensures Covered(Process(db, batch, id, a), p)
  {
    var after := Process(db, batch, id, a);
    if p in Reported(db, id, a) {
      assert p in after.dirty[batch];
    } else if InBatch(db, p) {
      var b :| b in db.dirty && p in db.dirty[b];
      assert p in after.dirty[b];
    } else if InPairTask(db, p) {
      assert InPairTask(after, p);
    } else if InReviewTask(db, p) {
      var r :| r in db.reviewTasks && Touches(db.mentions, MentionKey(r, p.dish), p);
      ProcessSeen(db, batch, id, a, p, MentionKey(r, p.dish));
    } else {
      var k :| Touches(db.mentions, k, p);
      ProcessSeen(db, batch, id, a, p, k);
    }
  }

  lemma ProcessKeeps(cfg: Config, db: Db, batch: BatchId, id: ReviewId, a: Analysis)
    requires cfg.Usable() && Inv(cfg, db) && Enabled(db, ProcessReview(batch, id, a))
    ensures Inv(cfg, Process(db, batch, id, a))
  {
    var after := Process(db, batch, id, a);
    ProcessWellFormed(db, batch, id, a);
    forall p ensures SameEvidence(db, after, p) || Covered(after, p) {
      if p in Reported(db, id, a) { ProcessCovered(db, batch, id, a, p); } else { ProcessEvidence(db, batch, id, a, p); }
    }
    forall p | Covered(db, p) ensures Covered(after, p) { ProcessCovered(db, batch, id, a, p); }
    EvidenceChange(cfg, db, after);
  }

  lemma ModerateKeeps(cfg: Config, db: Db, id: ReviewId, action: Action)
    requires cfg.Usable() && Inv(cfg, db) && id in db.reviews
    ensures Inv(cfg, Moderate(db, id, action))
  {
    var after := Moderate(db, id, action);
    forall p ensures SameEvidence(db, after, p) || Covered(after, p) {
      if Touches(db.mentions, MentionKey(id, p.dish), p) {
        assert id in after.reviewTasks;
      } else {
        forall k ensures Seen(db.reviews, db.mentions, k, p) == Seen(after.reviews, after.mentions, k, p) {
          assert k.review == id && Touches(db.mentions, k, p) ==> k == MentionKey(id, p.dish);
        }
        EvidenceEqual(db.reviews, db.mentions, after.reviews, after.mentions, p);
      }
    }
    forall p | Covered(db, p) ensures Covered(after, p) { QueuesGrow(db, after, p); }
    QueuesKnown(db, after, {});
    EvidenceChange(cfg, db, after);
  }

  lemma QueuesGrow(db: Db, after: Db, p: Pair)
    requires Covered(db, p) && after.mentions == db.mentions && after.scores == db.scores
    requires after.dirty == db.dirty && db.pairTasks <= after.pairTasks && db.reviewTasks <= after.reviewTasks
    ensures Covered(after, p)
  {
    if InBatch(db, p) {
      assert InBatch(after, p);
    } else if InPairTask(db, p) {
      var t :| t in db.pairTasks && p in t;
      assert t in after.pairTasks;
    } else if InReviewTask(db, p) {
      var r :| r in db.reviewTasks && Touches(db.mentions, MentionKey(r, p.dish), p);
      assert r in after.reviewTasks;
    }
  }

  lemma SubmitKeeps(cfg: Config, db: Db, id: ReviewId, review: Review)
    requires cfg.Usable() && Inv(cfg, db) && Enabled(db, Submit(id, review))
    ensures Inv(cfg, Step(cfg, db, Submit(id, review)))
  {
    var after := Step(cfg, db, Submit(id, review));
    forall p ensures SameEvidence(db, after, p) {
      forall k ensures Seen(db.reviews, db.mentions, k, p) == Seen(after.reviews, after.mentions, k, p) {}
      EvidenceEqual(db.reviews, db.mentions, after.reviews, after.mentions, p);
    }
    forall p | Covered(db, p) ensures Covered(after, p) { QueuesGrow(db, after, p); }
    QueuesKnown(db, after, {});
    EvidenceChange(cfg, db, after);
  }

  lemma AddRestaurantKeeps(cfg: Config, db: Db, r: RestaurantId)
    requires cfg.Usable() && Inv(cfg, db)
    ensures Inv(cfg, Step(cfg, db, AddRestaurant(r)))
  {
    var after := Step(cfg, db, AddRestaurant(r));
    forall p | Covered(db, p) ensures Covered(after, p) { QueuesGrow(db, after, p); }
    forall p ensures SameEvidence(db, after, p) {}
    QueuesKnown(db, after, {});
    EvidenceChange(cfg, db, after);
  }

  lemma EndBatchKeeps(cfg: Config, db: Db, batch: BatchId)
    requires cfg.Usable() && Inv(cfg, db) && batch in db.dirty
    ensures Inv(cfg, EndBatch(db, batch))
  {
    var after := EndBatch(db, batch);
    forall p | Covered(db, p) ensures Covered(after, p) {
      if InBatch(db, p) {
        var b :| b in db.dirty && p in db.dirty[b];
        if b == batch {
          assert db.dirty[b] in after.pairTasks;
        } else {
          assert p in after.dirty[b];
        }
      } else if InPairTask(db, p) {
        var t :| t in db.pairTasks && p in t;
        assert t in after.pairTasks;
      } else if InReviewTask(db, p) {
        assert InReviewTask(after, p);
      }
    }
    forall p ensures SameEvidence(db, after, p) {}
    QueuesKnown(db, after, {});
    EvidenceChange(cfg, db, after);
  }

  // ---- merging restaurants ----

  lemma MergeTouches(db: Db, target: RestaurantId, duplicate: RestaurantId, k: MentionKey, p: Pair)
    requires target != duplicate
    ensures p.restaurant == duplicate ==> !Touches(Moved(db.mentions, target, duplicate), k, p)
    ensures p.restaurant == target ==>
              (Touches(Moved(db.mentions, target, duplicate), k, p)
               <==> Touches(db.mentions, k, p) || Touches(db.mentions, k, Pair(p.dish, duplicate)))
    ensures p.restaurant != target && p.restaurant != duplicate ==>
              (Touches(Moved(db.mentions, target, duplicate), k, p) <==> Touches(db.mentions, k, p))
  {
  }

  /**
   * A merge loses no evidence and invents none: the target ends with its own and the duplicate's,
   * the duplicate with nothing, and every other restaurant with what it had.
   */
  lemma MergeUnitesEvidence(db: Db, target: RestaurantId, duplicate: RestaurantId, d: DishId, k: MentionKey)
    requires target != duplicate
    ensures var after := Merge(db, target, duplicate);
            && Seen(after.reviews, after.mentions, k, Pair(d, target))
               == (if Seen(db.reviews, db.mentions, k, Pair(d, target)).Some? then Seen(db.reviews, db.mentions, k, Pair(d, target))
                   else Seen(db.reviews, db.mentions, k, Pair(d, duplicate)))
            && Seen(after.reviews, after.mentions, k, Pair(d, duplicate)).None?
            && forall r | r != target && r != duplicate ::
                 Seen(after.reviews, after.mentions, k, Pair(d, r)) == Seen(db.reviews, db.mentions, k, Pair(d, r))
  {
  }

  lemma MergeSameEvidence(db: Db, target: RestaurantId, duplicate: RestaurantId, p: Pair)
    requires target != duplicate
    requires p.restaurant != duplicate && (p.restaurant == target ==> !HasMention(db.mentions, Pair(p.dish, duplicate)))
    ensures SameEvidence(db, Merge(db, target, duplicate), p)
  {
    var after := Merge(db, target, duplicate);
    forall k
      ensures Touches(db.mentions, k, p) <==> Touches(after.mentions, k, p)
      ensures Seen(db.reviews, db.mentions, k, p) == Seen(after.reviews, after.mentions, k, p)
    {
      MergeTouches(db, target, duplicate, k, p);
    }
    EvidenceEqual(db.reviews, db.mentions, after.reviews, after.mentions, p);
  }

  /** Pairs that had work pending keep it, unless the merge left nothing of them. */
  lemma MergeCovered(db: Db, target: RestaurantId, duplicate: RestaurantId, p: Pair)
    requires target != duplicate && Covered(db, p)
    ensures Covered(Merge(db, target, duplicate), p)
            || (p.restaurant == duplicate && Missing(Merge(db, target, duplicate), Pair(p.dish, target)))
  {
    var after := Merge(db, target, duplicate);
    if InBatch(db, p) {
      assert InBatch(after, p);
    } else if InPairTask(db, p) {
      assert InPairTask(after, p);
    } else {
      var k :| Touches(db.mentions, k, p) && (InReviewTask(db, p) ==> k.review in db.reviewTasks);
      MergeMention(db, target, duplicate, k, p);
      assert k == MentionKey(k.review, p.dish);
    }
  }

  lemma MergeMention(db: Db, target: RestaurantId, duplicate: RestaurantId, k: MentionKey, p: Pair)
    requires target != duplicate && Touches(db.mentions, k, p)
    ensures p.restaurant == duplicate || p.restaurant == target ==> Missing(Merge(db, target, duplicate), Pair(p.dish, target))
    ensures p.restaurant != duplicate ==> Touches(Merge(db, target, duplicate).mentions, k, p)
  {
    MergeTouches(db, target, duplicate, k, p);
    MergeTouches(db, target, duplicate, k, Pair(p.dish, target));
  }

  lemma MergePair(cfg: Config, db: Db, target: RestaurantId, duplicate: RestaurantId, p: Pair)
    requires cfg.Usable() && target != duplicate && (Agrees(cfg, db, p) || Covered(db, p))
    ensures Agrees(cfg, Merge(db, target, duplicate), p) || Covered(Merge(db, target, duplicate), p)
  {
    var after := Merge(db, target, duplicate);
    if p.restaurant == duplicate {
      forall k ensures !Touches(after.mentions, k, p) { MergeTouches(db, target, duplicate, k, p); }
    } else if Covered(db, p) {
      MergeCovered(db, target, duplicate, p);
    } else if k :| p.restaurant == target && Touches(db.mentions, k, Pair(p.dish, duplicate)) {
      MergeMention(db, target, duplicate, k, Pair(p.dish, duplicate));
    } else {
      MergeSameEvidence(db, target, duplicate, p);
    }
  }

  /** An uncovered pair without mentions stores a zero row, if any. */
  lemma UnmentionedRowIsZero(cfg: Config, db: Db, p: Pair)
    requires cfg.Usable() && Agrees(cfg, db, p) && !HasMention(db.mentions, p) && p in db.scores
    ensures IsZero(db.scores[p])
  {
    assert EvidenceOf(db.reviews, db.mentions, p) == map[] by {
      forall k ensures !Touches(db.mentions, k, p) {}
    }
  }

  lemma DroppedRowIsZero(cfg: Config, db: Db, target: RestaurantId, duplicate: RestaurantId, p: Pair)
    requires cfg.Usable() && target != duplicate && (Agrees(cfg, db, p) || Covered(db, p)) && p in db.scores
    requires p.restaurant == target || p.restaurant == duplicate
    requires !DishCovered(Merge(db, target, duplicate), p.dish)
    ensures IsZero(db.scores[p])
  {
    if Covered(db, p) { MergeCovered(db, target, duplicate, p); }
    if k :| Touches(db.mentions, k, p) {
      MergeMention(db, target, duplicate, k, p);
      assert Covered(Merge(db, target, duplicate), Pair(p.dish, target));
    }
    UnmentionedRowIsZero(cfg, db, p);
  }

  lemma MergeKeepsCover(db: Db, target: RestaurantId, duplicate: RestaurantId, d: DishId)
    requires target != duplicate && DishCovered(db, d)
    ensures DishCovered(Merge(db, target, duplicate), d)
  {
    var p: Pair :| p.dish == d && Covered(db, p);
    MergeCovered(db, target, duplicate, p);
    var after := Merge(db, target, duplicate);
    if !Covered(after, p) { assert Covered(after, Pair(d, target)); }
  }

  lemma MergeDish(cfg: Config, db: Db, target: RestaurantId, duplicate: RestaurantId, d: DishId)
    requires cfg.Usable() && target != duplicate && Inv(cfg, db)
    ensures DishAgrees(Merge(db, target, duplicate), d) || DishCovered(Merge(db, target, duplicate), d)
  {
    if DishCovered(db, d) {
      MergeKeepsCover(db, target, duplicate, d);
    } else if !DishCovered(Merge(db, target, duplicate), d) {
      MergeDropsZeros(cfg, db, target, duplicate, d);
      MergedAggregate(db, target, duplicate, d);
    }
  }

  lemma MergeDropsZeros(cfg: Config, db: Db, target: RestaurantId, duplicate: RestaurantId, d: DishId)
    requires cfg.Usable() && target != duplicate && Inv(cfg, db) && !DishCovered(Merge(db, target, duplicate), d)
    ensures forall p | p in {Pair(d, target), Pair(d, duplicate)} && p in RowsOf(db.scores, d) :: IsZero(RowsOf(db.scores, d)[p])
  {
    forall p | p in {Pair(d, target), Pair(d, duplicate)} && p in RowsOf(db.scores, d) ensures IsZero(RowsOf(db.scores, d)[p]) {
      assert Agrees(cfg, db, p) || Covered(db, p);
      DroppedRowIsZero(cfg, db, target, duplicate, p);
    }
  }

  lemma MergedAggregate(db: Db, target: RestaurantId, duplicate: RestaurantId, d: DishId)
    requires DishAgrees(db, d)
    requires forall p | p in {Pair(d, target), Pair(d, duplicate)} && p in RowsOf(db.scores, d) :: IsZero(RowsOf(db.scores, d)[p])
    ensures DishAgrees(Merge(db, target, duplicate), d)
  {
    AggregateDropZeros(RowsOf(db.scores, d), {Pair(d, target), Pair(d, duplicate)});
    MergedRows(db, target, duplicate, d);
  }

  lemma MergedRows(db: Db, target: RestaurantId, duplicate: RestaurantId, d: DishId)
    ensures RowsOf(Merge(db, target, duplicate).scores, d)
            == RowsOf(db.scores, d) - {Pair(d, target), Pair(d, duplicate)}
  {
  }

  lemma MergeKeeps(cfg: Config, db: Db, target: RestaurantId, duplicate: RestaurantId)
    requires cfg.Usable() && Inv(cfg, db) && Enabled(db, MergeRestaurants(target, duplicate))
    ensures Inv(cfg, Merge(db, target, duplicate))
  {
    forall p ensures Agrees(cfg, Merge(db, target, duplicate), p) || Covered(Merge(db, target, duplicate), p) {
      MergePair(cfg, db, target, duplicate, p);
    }
    forall d ensures DishAgrees(Merge(db, target, duplicate), d) || DishCovered(Merge(db, target, duplicate), d) {
      MergeDish(cfg, db, target, duplicate, d);
    }
    QueuesKnown(db, Merge(db, target, duplicate), {});
  }

  // ---- runs ----

  lemma StepKeeps(cfg: Config, db: Db, e: Event)
    requires cfg.Usable() && Inv(cfg, db) && Enabled(db, e)
    ensures Inv(cfg, Step(cfg, db, e))
  {
    match e
    case Submit(id, review) => SubmitKeeps(cfg, db, id, review);
    case AddRestaurant(r) => AddRestaurantKeeps(cfg, db, r);
    case ProcessReview(batch, id, a) => ProcessKeeps(cfg, db, batch, id, a);
    case FinishBatch(batch) => EndBatchKeeps(cfg, db, batch);
    case ModerateReview(id, action) => ModerateKeeps(cfg, db, id, action);
    case DeleteReview(id) => ModerateKeeps(cfg, db, id, Reject);
    case MergeRestaurants(target, duplicate) => MergeKeeps(cfg, db, target, duplicate);
    case RunPairs(pairs) => RunPairsKeeps(cfg, db, pairs);
    case RunReview(id) => RunReviewKeeps(cfg, db, id);
    case Sweep(stale, missing) => SweepKeeps(cfg, db, stale, missing);
  }

  /** `es` is a run from `db`: each operation is enabled where it happens. */
  ghost predicate IsRun(cfg: Config, db: Db, es: seq<Event>)
    requires cfg.Usable()
    decreases |es|
  {
    es == [] || (Enabled(db, es[0]) && IsRun(cfg, Step(cfg, db, es[0]), es[1..]))
  }

  ghost function After(cfg: Config, db: Db, es: seq<Event>): Db
    requires cfg.Usable() && IsRun(cfg, db, es)
    decreases |es|
  {
    if es == [] then db else After(cfg, Step(cfg, db, es[0]), es[1..])
  }

  /** Before any review there is nothing to score. */
  ghost predicate Initial(db: Db) {
    && db.reviews == map[] && db.mentions == map[] && db.scores == map[] && db.counts == map[]
    && db.dirty == map[] && db.pairTasks == multiset{} && db.reviewTasks == multiset{}
    && (forall d | d in db.dishes :: db.dishes[d] == DishRow(0, 0))
  }

  lemma InitialInv(cfg: Config, db: Db)
    requires cfg.Usable() && Initial(db)
    ensures Inv(cfg, db)
  {
    forall p ensures Agrees(cfg, db, p) {}
    forall d ensures DishAgrees(db, d) { assert RowsOf(db.scores, d) == map[]; }
  }

  lemma {:induction false} RunKeeps(cfg: Config, db: Db, es: seq<Event>)
    requires cfg.Usable() && Inv(cfg, db) && IsRun(cfg, db, es)
    ensures Inv(cfg, After(cfg, db, es))
    decreases |es|
  {
    if es != [] {
      StepKeeps(cfg, db, es[0]);
      RunKeeps(cfg, Step(cfg, db, es[0]), es[1..]);
    }
  }

  /** In every reachable state each pair agrees with its evidence or is covered, and so is each dish. */
  lemma {:induction false} IncrementalAgreement(cfg: Config, db: Db, es: seq<Event>)
    requires cfg.Usable() && Initial(db) && IsRun(cfg, db, es)
    ensures forall p :: Agrees(cfg, After(cfg, db, es), p) || Covered(After(cfg, db, es), p)
    ensures forall d :: DishAgrees(After(cfg, db, es), d) || DishCovered(After(cfg, db, es), d)
  {
    InitialInv(cfg, db);
    RunKeeps(cfg, db, es);
  }

  /** No batch is running, no task is queued, and the sweep would find no missing row. */
  ghost predicate Drained(db: Db) {
    && db.dirty == map[] && db.pairTasks == multiset{} && db.reviewTasks == multiset{}
    && forall p :: !Missing(db, p)
  }

  ghost predicate FromScratch(cfg: Config, db: Db)
    requires cfg.Usable()
  {
    (forall p :: Agrees(cfg, db, p)) && (forall d :: DishAgrees(db, d))
  }

  lemma DrainedIsFromScratch(cfg: Config, db: Db)
    requires cfg.Usable() && Inv(cfg, db) && Drained(db)
    ensures FromScratch(cfg, db)
  {
    forall p ensures !Covered(db, p) {}
  }
}
