/**
 * Two requests change evidence without queueing a recompute: reporting a review until it is hidden,
 * and remapping a mention to another dish. These lemmas say exactly when the tables survive them. A remap
 * also takes along the cover of a recompute that is queued for the review.
 */
module RankingGaps {
  import Scoring
  import opened Evidence
  import opened RankingView
  import opened RankingRuns

  function Reported(r: Review): Review {
    r.(reportCount := r.reportCount + 1,
       status := if r.reportCount + 1 >= 3 && r.status.Published? then Flagged else r.status)
  }

  function Report(db: Db, id: ReviewId): Db
    requires id in db.reviews
  {
    db.(reviews := db.reviews[id := Reported(db.reviews[id])])
  }

  /** The third report takes a counted review out of the evidence. */
  predicate Hides(r: Review) { r.reportCount + 1 >= 3 && Counts(r) }

  lemma {:induction false} ListSize<K>(ids: seq<K>, keys: set<K>)
    requires Lists(ids, keys)
    ensures |ids| == |keys|
  {
    if ids == [] {
      assert keys == {};
    } else {
      assert forall k | k in ids[1..] :: k in ids;
      forall k | k in keys - {ids[0]} ensures k in ids[1..] { assert k in ids; }
      ListSize(ids[1..], keys - {ids[0]});
    }
  }

  lemma EvidenceSize(ev: map<MentionKey, Scoring.Observation>)
    ensures ScratchCounts(ev).mentions == |ev.Keys|
  {
    ListSize(AnyOrder(ev.Keys), ev.Keys);
  }

  lemma EvidenceIn(r: map<ReviewId, Review>, m: map<MentionKey, Mention>, k: MentionKey, p: Pair)
    ensures k in EvidenceOf(r, m, p) <==> Seen(r, m, k, p).Some?
  {
  }

  /** `after` sees the same mentions for `p` as `db` does, less the mention `k`. */
  ghost predicate Loses(db: Db, after: Db, k: MentionKey, p: Pair) {
    && Seen(db.reviews, db.mentions, k, p).Some? && Seen(after.reviews, after.mentions, k, p).None?
    && forall j :: j != k ==> Seen(db.reviews, db.mentions, j, p) == Seen(after.reviews, after.mentions, j, p)
  }

  lemma LostEvidence(db: Db, after: Db, k: MentionKey, p: Pair)
    requires Loses(db, after, k, p)
    ensures |EvidenceOf(db.reviews, db.mentions, p).Keys| == |EvidenceOf(after.reviews, after.mentions, p).Keys| + 1
  {
    var keys, keys' := EvidenceOf(db.reviews, db.mentions, p).Keys, EvidenceOf(after.reviews, after.mentions, p).Keys;
    forall j ensures j in keys <==> j == k || j in keys' {
      EvidenceIn(db.reviews, db.mentions, j, p);
      EvidenceIn(after.reviews, after.mentions, j, p);
    }
    EvidenceIn(after.reviews, after.mentions, k, p);
    assert keys == keys' + {k};
  }

  /** One mention less is one count less, so rows that were right are now wrong. */
  lemma LostMention(cfg: Config, db: Db, after: Db, k: MentionKey, p: Pair)
    requires cfg.Usable() && Agrees(cfg, db, p) && p in db.counts && after.counts == db.counts && Loses(db, after, k, p)
    ensures !Agrees(cfg, after, p)
  {
    LostEvidence(db, after, k, p);
    EvidenceSize(EvidenceOf(db.reviews, db.mentions, p));
    EvidenceSize(EvidenceOf(after.reviews, after.mentions, p));
  }

  /** A report leaves a mention in the evidence exactly if it is not the third or later. */
  lemma ReportCounts(db: Db, id: ReviewId, k: MentionKey, p: Pair)
    requires id in db.reviews && k.review == id
    ensures var after := Report(db, id);
            k in EvidenceOf(after.reviews, after.mentions, p)
            <==> k in EvidenceOf(db.reviews, db.mentions, p) && db.reviews[id].reportCount + 1 < 3
    ensures Report(db, id).reviews[id].reportCount == db.reviews[id].reportCount + 1
  {
    EvidenceIff(db.reviews, db.mentions, k, p);
    EvidenceIff(Report(db, id).reviews, db.mentions, k, p);
  }

  lemma ReportSeen(db: Db, id: ReviewId, k: MentionKey, p: Pair)
    requires id in db.reviews
    ensures !Hides(db.reviews[id]) || k.review != id || !Touches(db.mentions, k, p)
            ==> Seen(db.reviews, db.mentions, k, p) == Seen(Report(db, id).reviews, db.mentions, k, p)
    ensures Hides(db.reviews[id]) && k.review == id ==> Seen(Report(db, id).reviews, db.mentions, k, p).None?
  {
  }

  lemma ReportSameEvidence(db: Db, id: ReviewId, p: Pair)
    requires id in db.reviews && (Hides(db.reviews[id]) ==> p !in Pairs(db.mentions, id))
    ensures SameEvidence(db, Report(db, id), p)
  {
    var after := Report(db, id);
    forall k ensures Seen(db.reviews, db.mentions, k, p) == Seen(after.reviews, after.mentions, k, p) {
      ReportSeen(db, id, k, p);
    }
    EvidenceEqual(db.reviews, db.mentions, after.reviews, after.mentions, p);
  }

  lemma ReportKeeps(cfg: Config, db: Db, id: ReviewId)
    requires cfg.Usable() && Inv(cfg, db) && id in db.reviews
    requires Hides(db.reviews[id]) ==> forall p | p in Pairs(db.mentions, id) :: Covered(db, p)
    ensures Inv(cfg, Report(db, id))
  {
    var after := Report(db, id);
    forall p | Covered(db, p) ensures Covered(after, p) { QueuesGrow(db, after, p); }
    forall p ensures SameEvidence(db, after, p) || Covered(after, p) {
      if !(Hides(db.reviews[id]) && p in Pairs(db.mentions, id)) { ReportSameEvidence(db, id, p); }
    }
    QueuesKnown(db, after, {});
    EvidenceChange(cfg, db, after);
  }

  lemma ReportBreaks(cfg: Config, db: Db, id: ReviewId, p: Pair)
    requires cfg.Usable() && Inv(cfg, db) && id in db.reviews
    requires Hides(db.reviews[id]) && p in Pairs(db.mentions, id) && !Covered(db, p)
    ensures !Agrees(cfg, Report(db, id), p) && !Covered(Report(db, id), p)
  {
    var after := Report(db, id);
    var k :| k in db.mentions && k.review == id && p == Pair(k.dish, db.mentions[k].restaurant);
    forall j ensures j != k ==> Seen(db.reviews, db.mentions, j, p) == Seen(after.reviews, after.mentions, j, p) {
      ReportSeen(db, id, j, p);
      assert j.review == id && Touches(db.mentions, j, p) ==> j == k;
    }
    ReportSeen(db, id, k, p);
    assert Touches(db.mentions, k, p);
    assert Agrees(cfg, db, p);
    LostMention(cfg, db, after, k, p);
    if Covered(after, p) { QueuesGrow(after, db, p); }
  }

  /** A report is safe exactly when it hides nothing that counted, or all the review's pairs were about to be recomputed. */
  lemma ReportSafeIff(cfg: Config, db: Db, id: ReviewId)
    requires cfg.Usable() && Inv(cfg, db) && id in db.reviews
    ensures Inv(cfg, Report(db, id))
            <==> (Hides(db.reviews[id]) ==> forall p | p in Pairs(db.mentions, id) :: Covered(db, p))
  {
    if p :| Hides(db.reviews[id]) && p in Pairs(db.mentions, id) && !Covered(db, p) {
      ReportBreaks(cfg, db, id, p);
    } else {
      ReportKeeps(cfg, db, id);
    }
  }

  // ---- remapping a mention ----

  function Remap(db: Db, k: MentionKey, dish: DishId): Db
    requires k in db.mentions
  {
    db.(mentions := (db.mentions - {k})[MentionKey(k.review, dish) := db.mentions[k]])
  }

  lemma RemapSeen(db: Db, k: MentionKey, dish: DishId, j: MentionKey, p: Pair)
    requires k in db.mentions && MentionKey(k.review, dish) !in db.mentions
    ensures var after := Remap(db, k, dish);
            && (j != k && j != MentionKey(k.review, dish) ==> (Touches(after.mentions, j, p) <==> Touches(db.mentions, j, p)))
            && (j != k && j != MentionKey(k.review, dish) ==>
                 Seen(db.reviews, db.mentions, j, p) == Seen(after.reviews, after.mentions, j, p))
            && !Touches(after.mentions, k, p)
            && (Touches(after.mentions, MentionKey(k.review, dish), p) ==> p == Pair(dish, db.mentions[k].restaurant))
  {
  }

  /** A review that does not count leaves the evidence of every pair as it was. */
  lemma RemapUncounted(db: Db, k: MentionKey, dish: DishId, p: Pair)
    requires k in db.mentions && MentionKey(k.review, dish) !in db.mentions
    requires k.review in db.reviews && !Counts(db.reviews[k.review])
    ensures EvidenceOf(db.reviews, db.mentions, p) == EvidenceOf(db.reviews, Remap(db, k, dish).mentions, p)
  {
    forall j ensures Seen(db.reviews, db.mentions, j, p) == Seen(db.reviews, Remap(db, k, dish).mentions, j, p) {
      RemapSeen(db, k, dish, j, p);
    }
    EvidenceEqual(db.reviews, db.mentions, db.reviews, Remap(db, k, dish).mentions, p);
  }

  /** The pair a mention is taken from, and the pair it goes to. */
  function From(db: Db, k: MentionKey): Pair
    requires k in db.mentions
  {
    Pair(k.dish, db.mentions[k].restaurant)
  }

  function To(db: Db, k: MentionKey, dish: DishId): Pair
    requires k in db.mentions
  {
    Pair(dish, db.mentions[k].restaurant)
  }

  /** What the endpoint accepts; UNIQUE(review, dish) rejects another dish that the review already has. */
  ghost predicate CanRemap(db: Db, k: MentionKey, dish: DishId) {
    k in db.mentions && k.review in db.reviews && dish in db.dishes && MentionKey(k.review, dish) !in db.mentions
  }

  lemma RemapElsewhere(cfg: Config, db: Db, k: MentionKey, dish: DishId, q: Pair)
    requires cfg.Usable() && CanRemap(db, k, dish) && q != From(db, k) && q != To(db, k, dish)
    ensures Covered(db, q) ==> Covered(Remap(db, k, dish), q)
    ensures Agrees(cfg, db, q) ==> Agrees(cfg, Remap(db, k, dish), q)
  {
    var after := Remap(db, k, dish);
    forall j
      ensures Touches(db.mentions, j, q) <==> Touches(after.mentions, j, q)
      ensures Seen(db.reviews, db.mentions, j, q) == Seen(after.reviews, after.mentions, j, q)
    {
      RemapSeen(db, k, dish, j, q);
    }
    EvidenceEqual(db.reviews, db.mentions, after.reviews, after.mentions, q);
    if InBatch(db, q) {
      assert InBatch(after, q);
    } else if InPairTask(db, q) {
      assert InPairTask(after, q);
    }
  }

  lemma RemapWellFormed(db: Db, k: MentionKey, dish: DishId)
    requires WellFormed(db) && CanRemap(db, k, dish)
    ensures WellFormed(Remap(db, k, dish))
  {
    QueuesKnown(db, Remap(db, k, dish), {});
  }

  lemma RemapLoses(db: Db, k: MentionKey, dish: DishId)
    requires CanRemap(db, k, dish) && Counts(db.reviews[k.review])
    ensures Loses(db, Remap(db, k, dish), k, From(db, k))
  {
    var after, p := Remap(db, k, dish), From(db, k);
    assert Touches(db.mentions, k, p);
    forall j ensures j != k ==> Seen(db.reviews, db.mentions, j, p) == Seen(after.reviews, after.mentions, j, p) {
      RemapSeen(db, k, dish, j, p);
    }
    RemapSeen(db, k, dish, k, p);
  }

  lemma RemapGains(db: Db, k: MentionKey, dish: DishId)
    requires CanRemap(db, k, dish) && Counts(db.reviews[k.review])
    ensures Loses(Remap(db, k, dish), db, MentionKey(k.review, dish), To(db, k, dish))
  {
    var after, p, added := Remap(db, k, dish), To(db, k, dish), MentionKey(k.review, dish);
    assert Touches(after.mentions, added, p);
    forall j ensures j != added ==> Seen(after.reviews, after.mentions, j, p) == Seen(db.reviews, db.mentions, j, p) {
      RemapSeen(db, k, dish, j, p);
      assert k.dish != dish;
    }
  }

  /** Rows that agree stop agreeing when a counted mention leaves or joins their pair. */
  lemma RemapBreaksRows(cfg: Config, db: Db, k: MentionKey, dish: DishId)
    requires cfg.Usable() && WellFormed(db) && CanRemap(db, k, dish) && Counts(db.reviews[k.review])
    requires Agrees(cfg, db, From(db, k)) && Agrees(cfg, db, To(db, k, dish))
    ensures !Agrees(cfg, Remap(db, k, dish), From(db, k))
    ensures !Agrees(cfg, Remap(db, k, dish), To(db, k, dish))
  {
    var after := Remap(db, k, dish);
    assert Touches(db.mentions, k, From(db, k));
    RemapLoses(db, k, dish);
    LostMention(cfg, db, after, k, From(db, k));
    RemapGains(db, k, dish);
    assert Touches(after.mentions, MentionKey(k.review, dish), To(db, k, dish));
    if To(db, k, dish) in db.counts {
      LostEvidence(after, db, MentionKey(k.review, dish), To(db, k, dish));
      EvidenceSize(EvidenceOf(db.reviews, db.mentions, To(db, k, dish)));
      EvidenceSize(EvidenceOf(after.reviews, after.mentions, To(db, k, dish)));
    }
  }

  /** The rows of both pairs and of both dishes are right before the remap. */
  ghost predicate BothAgree(cfg: Config, db: Db, k: MentionKey, dish: DishId)
    requires cfg.Usable() && k in db.mentions
  {
    Agrees(cfg, db, From(db, k)) && Agrees(cfg, db, To(db, k, dish)) && DishAgrees(db, k.dish) && DishAgrees(db, dish)
  }

  // ---- when a remap is safe, read off the tables before it ----

  /** The evidence that a remap leaves: a counted mention moves as it is. */
  function EvidenceAfter(db: Db, k: MentionKey, dish: DishId, p: Pair): map<MentionKey, Scoring.Observation>
    requires k in db.mentions
  {
    var ev, moved := EvidenceOf(db.reviews, db.mentions, p), Seen(db.reviews, db.mentions, k, From(db, k));
    if p == From(db, k) then ev - {k}
    else if p == To(db, k, dish) && moved.Some? then ev[MentionKey(k.review, dish) := moved.value]
    else ev
  }

  predicate TouchesAfter(db: Db, k: MentionKey, dish: DishId, j: MentionKey, p: Pair)
    requires k in db.mentions
  {
    if j == k then false else if j == MentionKey(k.review, dish) then p == To(db, k, dish) else Touches(db.mentions, j, p)
  }

  /** Some work queued now will recompute the pair, or the sweep will, even once the mention has moved. */
  ghost predicate StaysCovered(db: Db, k: MentionKey, dish: DishId, p: Pair)
    requires k in db.mentions
  {
    || InBatch(db, p) || InPairTask(db, p)
    || (exists r :: r in db.reviewTasks && TouchesAfter(db, k, dish, MentionKey(r, p.dish), p))
    || (p !in db.scores && exists j :: TouchesAfter(db, k, dish, j, p))
  }

  /** The stored rows of a pair are those of this evidence. */
  ghost predicate RowsGive(cfg: Config, db: Db, p: Pair, ev: map<MentionKey, Scoring.Observation>)
    requires cfg.Usable()
  {
    (p in db.scores ==> db.scores[p] == ScratchScore(cfg, ev)) && (p in db.counts ==> db.counts[p] == ScratchCounts(ev))
  }

  ghost predicate PairSettled(cfg: Config, db: Db, k: MentionKey, dish: DishId, p: Pair)
    requires cfg.Usable() && k in db.mentions
  {
    RowsGive(cfg, db, p, EvidenceAfter(db, k, dish, p)) || StaysCovered(db, k, dish, p)
  }

  ghost predicate DishSettled(db: Db, k: MentionKey, dish: DishId, d: DishId)
    requires k in db.mentions
  {
    DishAgrees(db, d) || exists p: Pair :: p.dish == d && StaysCovered(db, k, dish, p)
  }

  lemma RemapTouches(db: Db, k: MentionKey, dish: DishId, j: MentionKey, p: Pair)
    requires CanRemap(db, k, dish)
    ensures Touches(Remap(db, k, dish).mentions, j, p) <==> TouchesAfter(db, k, dish, j, p)
  {
    RemapSeen(db, k, dish, j, p);
  }

  lemma RemapCovered(db: Db, k: MentionKey, dish: DishId, p: Pair)
    requires CanRemap(db, k, dish)
    ensures Covered(Remap(db, k, dish), p) <==> StaysCovered(db, k, dish, p)
  {
    var after := Remap(db, k, dish);
    forall j ensures Touches(after.mentions, j, p) <==> TouchesAfter(db, k, dish, j, p) { RemapTouches(db, k, dish, j, p); }
    assert InBatch(after, p) <==> InBatch(db, p);
    assert InPairTask(after, p) <==> InPairTask(db, p);
    assert InReviewTask(after, p) <==> exists r :: r in db.reviewTasks && TouchesAfter(db, k, dish, MentionKey(r, p.dish), p);
    assert Missing(after, p) <==> p !in db.scores && exists j :: TouchesAfter(db, k, dish, j, p);
  }

  /** What each mention contributes after the remap. */
  lemma RemapEvidenceAt(db: Db, k: MentionKey, dish: DishId, j: MentionKey, p: Pair)
    requires CanRemap(db, k, dish)
    ensures var seen, ev := Seen(db.reviews, Remap(db, k, dish).mentions, j, p), EvidenceAfter(db, k, dish, p);
            (j in ev <==> seen.Some?) && (j in ev ==> ev[j] == seen.value)
  {
    RemapSeen(db, k, dish, j, p);
    EvidenceIn(db.reviews, db.mentions, j, p);
    assert Touches(db.mentions, k, From(db, k));
  }

  lemma RemapEvidence(db: Db, k: MentionKey, dish: DishId, p: Pair)
    requires CanRemap(db, k, dish)
    ensures EvidenceOf(db.reviews, Remap(db, k, dish).mentions, p) == EvidenceAfter(db, k, dish, p)
  {
    var ev := EvidenceOf(db.reviews, Remap(db, k, dish).mentions, p);
    forall j
      ensures j in ev <==> j in EvidenceAfter(db, k, dish, p)
      ensures j in ev ==> ev[j] == EvidenceAfter(db, k, dish, p)[j]
    {
      RemapEvidenceAt(db, k, dish, j, p);
      EvidenceIn(db.reviews, Remap(db, k, dish).mentions, j, p);
    }
  }

  lemma RemapPairIff(cfg: Config, db: Db, k: MentionKey, dish: DishId, p: Pair)
    requires cfg.Usable() && WellFormed(db) && CanRemap(db, k, dish)
    ensures var after := Remap(db, k, dish);
            Agrees(cfg, after, p) || Covered(after, p) <==> PairSettled(cfg, db, k, dish, p)
  {
    var after := Remap(db, k, dish);
    RemapEvidence(db, k, dish, p);
    RemapCovered(db, k, dish, p);
    if HasMention(after.mentions, p) && p !in after.scores { assert Missing(after, p); }
  }

  lemma RemapDishIff(db: Db, k: MentionKey, dish: DishId, d: DishId)
    requires CanRemap(db, k, dish)
    ensures var after := Remap(db, k, dish);
            DishAgrees(after, d) || DishCovered(after, d) <==> DishSettled(db, k, dish, d)
  {
    forall p ensures Covered(Remap(db, k, dish), p) <==> StaysCovered(db, k, dish, p) { RemapCovered(db, k, dish, p); }
  }

  /** Pairs and dishes that the mention neither leaves nor joins are as they were. */
  lemma RemapOthers(cfg: Config, db: Db, k: MentionKey, dish: DishId)
    requires cfg.Usable() && Inv(cfg, db) && CanRemap(db, k, dish)
    ensures forall p | p != From(db, k) && p != To(db, k, dish) :: PairSettled(cfg, db, k, dish, p)
    ensures forall d | d != k.dish && d != dish :: DishSettled(db, k, dish, d)
  {
    forall p | p != From(db, k) && p != To(db, k, dish) ensures PairSettled(cfg, db, k, dish, p) {
      RemapElsewhere(cfg, db, k, dish, p);
      RemapPairIff(cfg, db, k, dish, p);
    }
    forall d | d != k.dish && d != dish ensures DishSettled(db, k, dish, d) {
      if !DishAgrees(db, d) {
        var p: Pair :| p.dish == d && Covered(db, p);
        RemapElsewhere(cfg, db, k, dish, p);
        RemapCovered(db, k, dish, p);
      }
    }
  }

  /**
   * In every state of the invariant a remap is safe exactly if for each of the two pairs the stored rows
   * already are those of the evidence it will have, or work queued now will still recompute it, and
   * each of the two dishes adds up or has a pair that will be recomputed.
   */
  lemma RemapSafeIff(cfg: Config, db: Db, k: MentionKey, dish: DishId)
    requires cfg.Usable() && Inv(cfg, db) && CanRemap(db, k, dish)
    ensures Inv(cfg, Remap(db, k, dish)) <==>
              (PairSettled(cfg, db, k, dish, From(db, k)) && PairSettled(cfg, db, k, dish, To(db, k, dish))
               && DishSettled(db, k, dish, k.dish) && DishSettled(db, k, dish, dish))
  {
    RemapWellFormed(db, k, dish);
    RemapOthers(cfg, db, k, dish);
    forall p
      ensures (Agrees(cfg, Remap(db, k, dish), p) || Covered(Remap(db, k, dish), p)) <==> PairSettled(cfg, db, k, dish, p)
    {
      RemapPairIff(cfg, db, k, dish, p);
    }
    forall d
      ensures (DishAgrees(Remap(db, k, dish), d) || DishCovered(Remap(db, k, dish), d)) <==> DishSettled(db, k, dish, d)
    {
      RemapDishIff(db, k, dish, d);
    }
  }

  /** For a review that does not count, the rows are compared with the evidence as it is. */
  lemma RemapUncountedIff(cfg: Config, db: Db, k: MentionKey, dish: DishId)
    requires cfg.Usable() && Inv(cfg, db) && CanRemap(db, k, dish) && !Counts(db.reviews[k.review])
    ensures Inv(cfg, Remap(db, k, dish)) <==>
              ((forall p | p == From(db, k) || p == To(db, k, dish) ::
                 RowsGive(cfg, db, p, EvidenceOf(db.reviews, db.mentions, p)) || StaysCovered(db, k, dish, p))
               && DishSettled(db, k, dish, k.dish) && DishSettled(db, k, dish, dish))
  {
    RemapSafeIff(cfg, db, k, dish);
    forall p ensures EvidenceAfter(db, k, dish, p) == EvidenceOf(db.reviews, db.mentions, p) {
      RemapEvidence(db, k, dish, p);
      RemapUncounted(db, k, dish, p);
    }
  }

  /** Where all four rows are right: exactly if the review does not count, or both pairs will be recomputed anyway. */
  lemma RemapAgreedIff(cfg: Config, db: Db, k: MentionKey, dish: DishId)
    requires cfg.Usable() && Inv(cfg, db) && CanRemap(db, k, dish) && BothAgree(cfg, db, k, dish)
    ensures Inv(cfg, Remap(db, k, dish)) <==>
              (!Counts(db.reviews[k.review]) || (StaysCovered(db, k, dish, From(db, k)) && StaysCovered(db, k, dish, To(db, k, dish))))
  {
    if Counts(db.reviews[k.review]) {
      RemapSafeIff(cfg, db, k, dish);
      RemapBreaksRows(cfg, db, k, dish);
      RemapCovered(db, k, dish, From(db, k));
      RemapCovered(db, k, dish, To(db, k, dish));
    } else {
      RemapUncountedIff(cfg, db, k, dish);
    }
  }

  lemma QuietRow(db: Db, p: Pair)
    requires db.dirty == map[] && db.pairTasks == multiset{} && db.reviewTasks == multiset{} && p in db.scores
    ensures !Covered(db, p)
  {
  }

  /** With nothing queued that leaves the mentions of reviews that do not count. */
  lemma RemapDrainedIff(cfg: Config, db: Db, k: MentionKey, dish: DishId)
    requires cfg.Usable() && Inv(cfg, db) && Drained(db) && CanRemap(db, k, dish)
    ensures Inv(cfg, Remap(db, k, dish)) <==> !Counts(db.reviews[k.review])
  {
    DrainedIsFromScratch(cfg, db);
    assert Agrees(cfg, db, From(db, k)) && Agrees(cfg, db, To(db, k, dish)) && DishAgrees(db, k.dish) && DishAgrees(db, dish);
    RemapAgreedIff(cfg, db, k, dish);
    assert Touches(db.mentions, k, From(db, k));
    QuietRow(Remap(db, k, dish), From(db, k));
    RemapCovered(db, k, dish, From(db, k));
  }

  lemma RejectLoses(cfg: Config, db: Db, k: MentionKey)
    requires cfg.Usable() && k in db.mentions && k.review in db.reviews && Counts(db.reviews[k.review])
    ensures var rejected := Step(cfg, db, ModerateReview(k.review, Reject));
            Loses(db, rejected, k, From(db, k)) && rejected.counts == db.counts
  {
    var rejected, p := Step(cfg, db, ModerateReview(k.review, Reject)), From(db, k);
    assert Touches(db.mentions, k, p);
    forall j | j != k ensures Seen(db.reviews, db.mentions, j, p) == Seen(rejected.reviews, rejected.mentions, j, p) {
      assert j.review == k.review && Touches(db.mentions, j, p) ==> j == k;
    }
  }

  /** The task that a rejection queues is the only cover of the review's pairs. */
  lemma OnlyTheReview(db: Db, k: MentionKey, dish: DishId)
    requires CanRemap(db, k, dish) && From(db, k) in db.scores
    requires db.dirty == map[] && db.pairTasks == multiset{} && db.reviewTasks == multiset{k.review}
    ensures !StaysCovered(db, k, dish, From(db, k))
  {
    assert MentionKey(k.review, k.dish) == k;
  }

  lemma StaleStays(cfg: Config, db: Db, k: MentionKey, dish: DishId)
    requires cfg.Usable() && Inv(cfg, db) && CanRemap(db, k, dish) && !Counts(db.reviews[k.review]) && From(db, k) in db.scores
    requires !Agrees(cfg, db, From(db, k)) && !StaysCovered(db, k, dish, From(db, k))
    ensures !Inv(cfg, Remap(db, k, dish))
  {
    RemapUncountedIff(cfg, db, k, dish);
  }

  /** After the rejection the row of the old pair still counts the mention. */
  lemma RejectStale(cfg: Config, db: Db, k: MentionKey)
    requires cfg.Usable() && Inv(cfg, db) && Drained(db) && k in db.mentions && k.review in db.reviews && Counts(db.reviews[k.review])
    ensures From(db, k) in db.scores && !Agrees(cfg, Step(cfg, db, ModerateReview(k.review, Reject)), From(db, k))
  {
    var p := From(db, k);
    assert Touches(db.mentions, k, p);
    assert !Missing(db, p);
    QuietRow(db, p);
    assert Agrees(cfg, db, p);
    RejectLoses(cfg, db, k);
    LostMention(cfg, db, Step(cfg, db, ModerateReview(k.review, Reject)), k, p);
  }

  /**
   * Rejecting a review and then remapping one of its mentions, with nothing else queued, leaves a stale
   * row: the queued task was the only cover of the old pair, and the remap takes it along to the new.
   */
  lemma RejectThenRemapBreaks(cfg: Config, db: Db, k: MentionKey, dish: DishId)
    requires cfg.Usable() && Inv(cfg, db) && Drained(db) && CanRemap(db, k, dish) && Counts(db.reviews[k.review])
    ensures var rejected := Step(cfg, db, ModerateReview(k.review, Reject));
            && Inv(cfg, rejected) && CanRemap(rejected, k, dish) && !Counts(rejected.reviews[k.review])
            && !Inv(cfg, Remap(rejected, k, dish))
  {
    var rejected := Step(cfg, db, ModerateReview(k.review, Reject));
    ModerateKeeps(cfg, db, k.review, Reject);
    RejectStale(cfg, db, k);
    OnlyTheReview(rejected, k, dish);
    StaleStays(cfg, rejected, k, dish);
  }

  // ---- a reachable state in which a third report leaves a stale row ----

  function Start(restaurant: RestaurantId): Db {
    Db({restaurant}, map[], map[], map[], map[], map[0 := DishRow(0, 0)], map[], multiset{}, multiset{})
  }

  /** The tables after one review of dish 0 is submitted and processed and its batch has ended. */
  lemma OneReview(cfg: Config, review: Review, m: Mention) returns (db: Db)
    requires cfg.Usable() && m.restaurant == review.restaurant
    ensures var db1 := Step(cfg, Start(review.restaurant), Submit(0, review));
            db == Step(cfg, Step(cfg, db1, ProcessReview(0, 0, Analysis(map[0 := m], false, false))), FinishBatch(0))
    ensures Inv(cfg, db) && db.restaurants == {review.restaurant} && db.reviews == map[0 := review]
    ensures db.mentions == map[MentionKey(0, 0) := m] && db.dirty == map[] && db.reviewTasks == multiset{}
    ensures db.pairTasks == multiset{{Pair(0, review.restaurant)}}
  {
    InitialInv(cfg, Start(review.restaurant));
    SubmitKeeps(cfg, Start(review.restaurant), 0, review);
    var db1 := Start(review.restaurant).(reviews := map[0 := review]);
    ProcessKeeps(cfg, db1, 0, 0, Analysis(map[0 := m], false, false));
    var db2 := Process(db1, 0, 0, Analysis(map[0 := m], false, false));
    EndBatchKeeps(cfg, db2, 0);
    db := EndBatch(db2, 0);
    Processed(db1, review, m);
  }

  lemma Processed(db: Db, review: Review, m: Mention)
    requires db == Start(review.restaurant).(reviews := map[0 := review]) && m.restaurant == review.restaurant
    ensures EndBatch(Process(db, 0, 0, Analysis(map[0 := m], false, false)), 0)
            == db.(mentions := map[MentionKey(0, 0) := m], pairTasks := multiset{{Pair(0, review.restaurant)}})
  {
    var a, p := Analysis(map[0 := m], false, false), Pair(0, review.restaurant);
    assert Annotated(review, a) == review;
    OnePairReported(db, review, m);
    OneMentionStored(db, review, m);
    var done := Process(db, 0, 0, a);
    assert BatchPairs(db, 0) + {p} == {p};
    assert done.dirty == map[0 := {p}];
    assert done.dirty - {0} == map[];
    assert done.reviews == db.reviews;
  }

  lemma OnePairReported(db: Db, review: Review, m: Mention)
    requires db.reviews == map[0 := review] && db.mentions == map[]
    ensures RankingView.Reported(db, 0, Analysis(map[0 := m], false, false)) == {Pair(0, review.restaurant)}
  {
    assert 0 in map[0 := m];
    assert Pairs(db.mentions, 0) == {};
  }

  lemma OneMentionStored(db: Db, review: Review, m: Mention)
    requires db.reviews == map[0 := review] && db.mentions == map[] && m.restaurant == review.restaurant
    ensures Process(db, 0, 0, Analysis(map[0 := m], false, false)).mentions == map[MentionKey(0, 0) := m]
  {
    assert Inserted(0, review.restaurant, map[0 := m]) == map[MentionKey(0, 0) := m];
  }

  /** Scoring the one queued pair leaves nothing queued. */
  lemma Scored(cfg: Config, db: Db, p: Pair)
    requires cfg.Usable() && db.pairTasks == multiset{{p}} && p.restaurant in db.restaurants
    requires db.dirty == map[] && db.reviewTasks == multiset{}
    ensures var end := Step(cfg, db, RunPairs({p}));
            !Covered(end, p) && end.reviews == db.reviews && end.mentions == db.mentions
  {
    QuietRow(Step(cfg, db, RunPairs({p})), p);
  }

  lemma {:induction false} Then(cfg: Config, db: Db, e: Event, es: seq<Event>)
    requires cfg.Usable() && Enabled(db, e) && IsRun(cfg, Step(cfg, db, e), es)
    ensures IsRun(cfg, db, [e] + es) && After(cfg, db, [e] + es) == After(cfg, Step(cfg, db, e), es)
  {
    assert ([e] + es)[1..] == es;
  }

  lemma {:induction false} FourSteps(cfg: Config, db: Db, e1: Event, e2: Event, e3: Event, e4: Event)
    requires cfg.Usable() && Enabled(db, e1)
    requires Enabled(Step(cfg, db, e1), e2) && Enabled(Step(cfg, Step(cfg, db, e1), e2), e3)
    requires Enabled(Step(cfg, Step(cfg, Step(cfg, db, e1), e2), e3), e4)
    ensures IsRun(cfg, db, [e1] + ([e2] + ([e3] + ([e4] + []))))
    ensures After(cfg, db, [e1] + ([e2] + ([e3] + ([e4] + []))))
            == Step(cfg, Step(cfg, Step(cfg, Step(cfg, db, e1), e2), e3), e4)
  {
    ThreeSteps(cfg, Step(cfg, db, e1), e2, e3, e4);
    Then(cfg, db, e1, [e2] + ([e3] + ([e4] + [])));
  }

  lemma {:induction false} ThreeSteps(cfg: Config, db: Db, e1: Event, e2: Event, e3: Event)
    requires cfg.Usable() && Enabled(db, e1)
    requires Enabled(Step(cfg, db, e1), e2) && Enabled(Step(cfg, Step(cfg, db, e1), e2), e3)
    ensures IsRun(cfg, db, [e1] + ([e2] + ([e3] + [])))
    ensures After(cfg, db, [e1] + ([e2] + ([e3] + []))) == Step(cfg, Step(cfg, Step(cfg, db, e1), e2), e3)
  {
    Then(cfg, Step(cfg, Step(cfg, db, e1), e2), e3, []);
    Then(cfg, Step(cfg, db, e1), e2, [e3] + []);
    Then(cfg, db, e1, [e2] + ([e3] + []));
  }

  function ToScored(review: Review, m: Mention): seq<Event> {
    [Submit(0, review)] + ([ProcessReview(0, 0, Analysis(map[0 := m], false, false))]
                           + ([FinishBatch(0)] + ([RunPairs({Pair(0, review.restaurant)})] + [])))
  }

  lemma EachEnabled(cfg: Config, review: Review, m: Mention)
    requires cfg.Usable() && m.restaurant == review.restaurant
    ensures var db0, a := Start(review.restaurant), Analysis(map[0 := m], false, false);
            && Enabled(db0, Submit(0, review))
            && Enabled(Step(cfg, db0, Submit(0, review)), ProcessReview(0, 0, a))
            && Enabled(Step(cfg, Step(cfg, db0, Submit(0, review)), ProcessReview(0, 0, a)), FinishBatch(0))
  {
  }

  lemma ScoredState(cfg: Config, db: Db, review: Review)
    requires cfg.Usable() && Inv(cfg, db) && db.restaurants == {review.restaurant} && db.dirty == map[] && db.reviewTasks == multiset{}
    requires db.pairTasks == multiset{{Pair(0, review.restaurant)}}
    ensures Enabled(db, RunPairs({Pair(0, review.restaurant)}))
    ensures var end := Step(cfg, db, RunPairs({Pair(0, review.restaurant)}));
            && Inv(cfg, end) && !Covered(end, Pair(0, review.restaurant))
            && end.reviews == db.reviews && end.mentions == db.mentions
  {
    var p := Pair(0, review.restaurant);
    RunPairsKeeps(cfg, db, {p});
    Scored(cfg, db, p);
  }

  /** The run ends with the review's one pair scored and nothing queued. */
  lemma RunToScored(cfg: Config, review: Review, m: Mention) returns (end: Db)
    requires cfg.Usable() && m.restaurant == review.restaurant
    ensures IsRun(cfg, Start(review.restaurant), ToScored(review, m))
    ensures end == After(cfg, Start(review.restaurant), ToScored(review, m)) && Inv(cfg, end)
    ensures end.reviews == map[0 := review] && end.mentions == map[MentionKey(0, 0) := m]
    ensures !Covered(end, Pair(0, review.restaurant))
  {
    var db := OneReview(cfg, review, m);
    EachEnabled(cfg, review, m);
    ScoredState(cfg, db, review);
    var run := RunPairs({Pair(0, review.restaurant)});
    FourSteps(cfg, Start(review.restaurant), Submit(0, review), ProcessReview(0, 0, Analysis(map[0 := m], false, false)),
              FinishBatch(0), run);
    end := Step(cfg, db, run);
  }

  lemma ThreeReports(cfg: Config, db: Db, review: Review, p: Pair)
    requires cfg.Usable() && Inv(cfg, db) && db.reviews == map[0 := review] && Counts(review) && review.reportCount == 0
    requires !Covered(db, p) && p in Pairs(db.mentions, 0)
    ensures Inv(cfg, Report(db, 0)) && Inv(cfg, Report(Report(db, 0), 0))
    ensures !Inv(cfg, Report(Report(Report(db, 0), 0), 0))
  {
    var once := Report(db, 0);
    var twice := Report(once, 0);
    ReportSafeIff(cfg, db, 0);
    ReportSafeIff(cfg, once, 0);
    if Covered(twice, p) { QueuesGrow(twice, db, p); }
    ReportSafeIff(cfg, twice, 0);
  }

  /**
   * A run from the empty tables, by one review submitted, processed and scored, after which two reports
   * keep the invariant and the third leaves a stale row that nothing covers.
   */
  lemma ThirdReportBreaks(cfg: Config, review: Review, m: Mention) returns (es: seq<Event>)
    requires cfg.Usable() && m.restaurant == review.restaurant && Counts(review) && review.reportCount == 0
    ensures Initial(Start(review.restaurant)) && IsRun(cfg, Start(review.restaurant), es)
    ensures var end := After(cfg, Start(review.restaurant), es);
            && 0 in end.reviews && Inv(cfg, end)
            && Inv(cfg, Report(end, 0)) && Inv(cfg, Report(Report(end, 0), 0))
            && !Inv(cfg, Report(Report(Report(end, 0), 0), 0))
  {
    es := ToScored(review, m);
    var end := RunToScored(cfg, review, m);
    ThreeReports(cfg, end, review, Pair(0, review.restaurant));
  }
}
