/**
 * Draining: queued work runs out in every order, and what is left is the table computed from
 * scratch. Also what one sweep over everything repairs, whatever state it finds.
 */
module RankingDrain {
  import opened Stats
  import opened Evidence
  import opened RankingView
  import opened RankingRuns

  function MissingPairs(db: Db): set<Pair> {
    set k | k in db.mentions && Pair(k.dish, db.mentions[k].restaurant) !in db.scores :: Pair(k.dish, db.mentions[k].restaurant)
  }

  lemma MissingPairsAre(db: Db, p: Pair)
    ensures p in MissingPairs(db) <==> Missing(db, p)
  {
    if Missing(db, p) {
      var k :| Touches(db.mentions, k, p);
      assert p == Pair(k.dish, db.mentions[k].restaurant);
    }
    if p in MissingPairs(db) {
      var k :| k in db.mentions && p == Pair(k.dish, db.mentions[k].restaurant) && p !in db.scores;
      assert Touches(db.mentions, k, p);
    }
  }

  function Least(a: nat, b: nat): nat { if a <= b then a else b }

  /** A task that has something to do. The sweep takes at most `limit` missing pairs at a time. */
  ghost predicate IsWork(db: Db, e: Event, limit: nat) {
    && Enabled(db, e)
    && (e.FinishBatch? || e.RunPairs? || e.RunReview?
        || (e.Sweep? && MissingPairs(db) != {} && |e.missing| == Least(limit, |MissingPairs(db)|)))
  }

  function Backlog(db: Db): nat { QueueSize(db) + |MissingPairs(db)| }

  function QueueSize(db: Db): nat { 2 * |db.dirty.Keys| + |db.pairTasks| + |db.reviewTasks| }

  lemma MissingShrinks(cfg: Config, db: Db, pairs: set<Pair>)
    requires cfg.Usable() && WellFormed(db)
    ensures MissingPairs(Recompute(cfg, db, pairs)) == MissingPairs(db) - pairs
  {
    var after := Recompute(cfg, db, pairs);
    forall p ensures p in MissingPairs(after) <==> p in MissingPairs(db) - pairs {
      MissingPairsAre(db, p);
      MissingPairsAre(after, p);
      if k :| Touches(db.mentions, k, p) { assert db.mentions[k].restaurant in db.restaurants; }
    }
  }

  /** Recomputing takes its pairs off the backlog and leaves the evidence alone. */
  lemma RecomputeBacklog(cfg: Config, db: Db, pairs: set<Pair>)
    requires cfg.Usable() && WellFormed(db)
    ensures QueueSize(Recompute(cfg, db, pairs)) == QueueSize(db)
    ensures |MissingPairs(Recompute(cfg, db, pairs))| <= |MissingPairs(db)|
    ensures (exists p :: p in MissingPairs(db) && p in pairs) ==> |MissingPairs(Recompute(cfg, db, pairs))| < |MissingPairs(db)|
  {
    MissingShrinks(cfg, db, pairs);
    QueueKept(cfg, db, pairs);
    FewerLeft(MissingPairs(db), pairs);
  }

  lemma QueueKept(cfg: Config, db: Db, pairs: set<Pair>)
    requires cfg.Usable()
    ensures QueueSize(Recompute(cfg, db, pairs)) == QueueSize(db)
  {
  }

  lemma FewerLeft(missing: set<Pair>, pairs: set<Pair>)
    ensures |missing - pairs| <= |missing|
    ensures (exists p :: p in missing && p in pairs) ==> |missing - pairs| < |missing|
  {
    SubsetSize(missing - pairs, missing);
    if p :| p in missing && p in pairs { assert p in missing - (missing - pairs); }
  }

  lemma SweepBacklog(cfg: Config, db: Db, pairs: set<Pair>, p: Pair)
    requires cfg.Usable() && WellFormed(db) && p in pairs && Missing(db, p)
    ensures Progress(db, Recompute(cfg, db, pairs))
  {
    MissingPairsAre(db, p);
    RecomputeBacklog(cfg, db, pairs);
  }

  lemma BatchBacklog(db: Db, batch: BatchId)
    requires batch in db.dirty
    ensures Backlog(EndBatch(db, batch)) < Backlog(db)
  {
    assert db.dirty.Keys == (db.dirty - {batch}).Keys + {batch};
    assert MissingPairs(EndBatch(db, batch)) == MissingPairs(db);
  }

  lemma TaskBacklog(cfg: Config, db: Db, rest: Db, pairs: set<Pair>)
    requires cfg.Usable() && WellFormed(rest)
    requires rest.mentions == db.mentions && rest.scores == db.scores && QueueSize(rest) < QueueSize(db)
    ensures Backlog(Recompute(cfg, rest, pairs)) < Backlog(db)
  {
    assert MissingPairs(rest) == MissingPairs(db);
    RecomputeBacklog(cfg, rest, pairs);
  }

  /** What running a task takes: a smaller backlog, over the same evidence. */
  predicate Progress(before: Db, after: Db) {
    Backlog(after) < Backlog(before) && after.reviews == before.reviews && after.mentions == before.mentions
  }

  lemma PairsProgress(cfg: Config, db: Db, pairs: set<Pair>)
    requires cfg.Usable() && WellFormed(db) && pairs in db.pairTasks
    ensures Progress(db, Step(cfg, db, RunPairs(pairs)))
  {
    TaskOff(db, pairs);
    TaskBacklog(cfg, db, db.(pairTasks := db.pairTasks - multiset{pairs}), pairs);
  }

  lemma ReviewProgress(cfg: Config, db: Db, id: ReviewId)
    requires cfg.Usable() && WellFormed(db) && id in db.reviewTasks
    ensures Progress(db, Step(cfg, db, RunReview(id)))
  {
    ReviewTaskOff(db, id);
    TaskBacklog(cfg, db, db.(reviewTasks := db.reviewTasks - multiset{id}), Pairs(db.mentions, id));
  }

  lemma SweepProgress(cfg: Config, db: Db, stale: set<Pair>, missing: set<Pair>, p: Pair)
    requires cfg.Usable() && WellFormed(db) && Enabled(db, Sweep(stale, missing)) && p in missing
    ensures Progress(db, Step(cfg, db, Sweep(stale, missing)))
  {
    assert Missing(db, p);
    SweepBacklog(cfg, db, stale + missing, p);
  }

  /** Every task that runs leaves less to do and the evidence alone. */
  lemma WorkShrinks(cfg: Config, db: Db, e: Event, limit: nat)
    requires cfg.Usable() && WellFormed(db) && limit > 0 && IsWork(db, e, limit)
    ensures Progress(db, Step(cfg, db, e))
  {
    match e
    case FinishBatch(batch) => BatchBacklog(db, batch);
    case RunPairs(pairs) => PairsProgress(cfg, db, pairs);
    case RunReview(id) => ReviewProgress(cfg, db, id);
    case Sweep(stale, missing) =>
      var p :| p in missing;
      SweepProgress(cfg, db, stale, missing, p);
  }

  lemma TaskOff(db: Db, pairs: set<Pair>)
    requires WellFormed(db) && pairs in db.pairTasks
    ensures var rest := db.(pairTasks := db.pairTasks - multiset{pairs}); QueueSize(rest) < QueueSize(db) && WellFormed(rest)
  {
    var rest := db.(pairTasks := db.pairTasks - multiset{pairs});
    forall p | InBatch(rest, p) || InPairTask(rest, p) ensures Known(rest, p) {
      assert InBatch(db, p) || InPairTask(db, p);
    }
  }

  lemma ReviewTaskOff(db: Db, id: ReviewId)
    requires WellFormed(db) && id in db.reviewTasks
    ensures var rest := db.(reviewTasks := db.reviewTasks - multiset{id}); QueueSize(rest) < QueueSize(db) && WellFormed(rest)
  {
    var rest := db.(reviewTasks := db.reviewTasks - multiset{id});
    forall p | InBatch(rest, p) || InPairTask(rest, p) ensures Known(rest, p) {
      assert InBatch(db, p) || InPairTask(db, p);
    }
  }

  lemma {:induction false} Choose(s: set<Pair>, n: nat) returns (t: set<Pair>)
    requires n <= |s|
    ensures t <= s && |t| == n
  {
    if n == 0 {
      t := {};
    } else {
      var p :| p in s;
      t := Choose(s - {p}, n - 1);
      t := t + {p};
    }
  }

  /** Until everything is drained some task can run. */
  lemma SomeWork(db: Db, limit: nat) returns (e: Event)
    requires !Drained(db)
    ensures IsWork(db, e, limit)
  {
    if db.dirty != map[] {
      assert db.dirty.Keys != {};
      var b :| b in db.dirty;
      e := FinishBatch(b);
    } else if db.pairTasks != multiset{} {
      var t :| t in db.pairTasks;
      e := RunPairs(t);
    } else if db.reviewTasks != multiset{} {
      var r :| r in db.reviewTasks;
      e := RunReview(r);
    } else {
      var p :| Missing(db, p);
      MissingPairsAre(db, p);
      var missing := Choose(MissingPairs(db), Least(limit, |MissingPairs(db)|));
      forall q | q in missing ensures Missing(db, q) { MissingPairsAre(db, q); }
      e := Sweep({}, missing);
    }
  }

  ghost predicate IsWorkRun(cfg: Config, db: Db, es: seq<Event>, limit: nat)
    requires cfg.Usable()
    decreases |es|
  {
    es == [] || (IsWork(db, es[0], limit) && IsWorkRun(cfg, Step(cfg, db, es[0]), es[1..], limit))
  }

  /**
   * From any state that keeps the invariant, every order of running the queued tasks ends within
   * the backlog, and as soon as none is left the tables are those computed from scratch from the
   * evidence there was.
   */
  lemma {:induction false} DrainingEnds(cfg: Config, db: Db, es: seq<Event>, limit: nat)
    requires cfg.Usable() && Inv(cfg, db) && limit > 0 && IsWorkRun(cfg, db, es, limit)
    ensures IsRun(cfg, db, es)
    ensures |es| + Backlog(After(cfg, db, es)) <= Backlog(db)
    ensures After(cfg, db, es).reviews == db.reviews && After(cfg, db, es).mentions == db.mentions
    ensures Inv(cfg, After(cfg, db, es))
    ensures (forall e :: !IsWork(After(cfg, db, es), e, limit))
            ==> Drained(After(cfg, db, es)) && FromScratch(cfg, After(cfg, db, es))
    decreases |es|
  {
    if es == [] {
      if !Drained(db) { var e := SomeWork(db, limit); } else { DrainedIsFromScratch(cfg, db); }
    } else {
      WorkShrinks(cfg, db, es[0], limit);
      StepKeeps(cfg, db, es[0]);
      DrainingEnds(cfg, Step(cfg, db, es[0]), es[1..], limit);
    }
  }

  // ---- what a full sweep repairs ----

  /** Every stored row, wherever it came from, and every mentioned pair agrees with the evidence. */
  ghost predicate RowsAgree(cfg: Config, db: Db)
    requires cfg.Usable()
  {
    && (forall p | p in db.scores || HasMention(db.mentions, p) :: Agrees(cfg, db, p))
    && (forall p | p in db.scores :: DishAgrees(db, p.dish))
  }

  /** A sweep over every row and every missing pair repairs any state, however it came about. */
  lemma FullSweepRepairs(cfg: Config, db: Db)
    requires cfg.Usable() && WellFormed(db)
    ensures Enabled(db, Sweep(db.scores.Keys, MissingPairs(db)))
    ensures RowsAgree(cfg, Step(cfg, db, Sweep(db.scores.Keys, MissingPairs(db))))
  {
    forall p | p in MissingPairs(db) ensures Missing(db, p) { MissingPairsAre(db, p); }
    var pairs := db.scores.Keys + MissingPairs(db);
    var after := Recompute(cfg, db, pairs);
    forall p | p in after.scores || HasMention(after.mentions, p)
      ensures Agrees(cfg, after, p) && DishAgrees(after, p.dish)
    {
      MissingPairsAre(db, p);
      SweptPair(cfg, db, pairs, p);
    }
  }

  lemma SweptPair(cfg: Config, db: Db, pairs: set<Pair>, p: Pair)
    requires cfg.Usable() && WellFormed(db) && p in pairs && (p in db.scores || HasMention(db.mentions, p))
    ensures Agrees(cfg, Recompute(cfg, db, pairs), p) && DishAgrees(Recompute(cfg, db, pairs), p.dish)
  {
    if k :| Touches(db.mentions, k, p) { assert db.mentions[k].restaurant in db.restaurants; }
    assert Known(db, p);
    TouchedDish(cfg, db, pairs, p);
  }
}
