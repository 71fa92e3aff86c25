/**
 * Duplicate flags over a run in which reviews of restaurants arrive and are processed, each against
 * the newest other reviews of its restaurant. A signature is stored when a review arrives.
 */
module DuplicateRuns {
  import opened Sorting
  import Stats
  import opened Dedup
  import Evidence

  type ReviewId = nat

  datatype Review = Review(restaurant: nat, text: string, publishedAt: real, simhash: int, isDuplicate: bool)

  type Db = map<ReviewId, Review>

  const WindowSize: nat := 40

  // ---- the candidate window ----

  /** Other reviews of the restaurant; those already flagged are not left out. */
  function Candidates(db: Db, id: ReviewId): set<ReviewId>
    requires id in db
  {
    set r | r in db && r != id && db[r].restaurant == db[id].restaurant
  }

  /** The newest forty candidates, in the order of the query; among equally old ones it may take any. */
  ghost predicate IsWindow(db: Db, id: ReviewId, window: seq<ReviewId>)
    requires id in db
  {
    && Distinct(window) && (forall r | r in window :: r in Candidates(db, id))
    && (forall i, j | 0 <= i < j < |window| :: window[i] in db && window[j] in db && db[window[i]].publishedAt >= db[window[j]].publishedAt)
    && (forall c, r | c in Candidates(db, id) && c !in window && r in window :: db[r].publishedAt >= db[c].publishedAt)
    && |window| == if |Candidates(db, id)| < WindowSize then |Candidates(db, id)| else WindowSize
  }

  function RowOf(db: Db, id: ReviewId): Row
    requires id in db
  {
    Row("", db[id].simhash, db[id].text)
  }

  /** The text of one review passes both thresholds against the stored row of another. */
  predicate Near(t: Text, db: Db, id: ReviewId, other: ReviewId)
    requires id in db && other in db
  {
    Passes(t, db[id].text, RowOf(db, other))
  }

  function Rows(db: Db, window: seq<ReviewId>): (rows: seq<Row>)
    requires forall r | r in window :: r in db
    ensures |rows| == |window| && forall i | 0 <= i < |rows| :: rows[i] == RowOf(db, window[i])
  {
    seq(|window|, i requires 0 <= i < |window| => RowOf(db, window[i]))
  }

  predicate SomeNear(t: Text, db: Db, id: ReviewId, window: seq<ReviewId>)
    requires id in db && forall r | r in window :: r in db
  {
    exists r | r in window :: Near(t, db, id, r)
  }

  /** Processing a review: its signature is stored anew, and a match in its window flags it. */
  function Processed(t: Text, db: Db, id: ReviewId, window: seq<ReviewId>): Db
    requires id in db && forall r | r in window :: r in db
  {
    db[id := db[id].(simhash := ToSigned64(t.signature(db[id].text)), isDuplicate := db[id].isDuplicate || SomeNear(t, db, id, window))]
  }

  method FlagNearDuplicate(t: Text, db: Db, id: ReviewId, window: seq<ReviewId>) returns (after: Db)
    requires id in db && id !in window && forall r | r in window :: r in db
    ensures after == Processed(t, db, id, window)
  {
    var review := db[id].(simhash := ToSigned64(t.signature(db[id].text)));
    var verdict := IsNearDuplicate(t, review.text, Rows(db, window));
    VerdictIsSomeNear(t, db, id, window, verdict);
    if verdict.isDuplicate {
      review := review.(isDuplicate := true);
    }
    after := db[id := review];
  }

  lemma PassingRow(t: Text, db: Db, id: ReviewId, window: seq<ReviewId>)
    requires id in db && forall r | r in window :: r in db
    ensures SomeNear(t, db, id, window) <==> exists row | row in Rows(db, window) :: Passes(t, db[id].text, row)
  {
    var rows := Rows(db, window);
    if r :| r in window && Near(t, db, id, r) {
      var i :| 0 <= i < |window| && window[i] == r;
      assert rows[i] in rows;
    }
    if row :| row in rows && Passes(t, db[id].text, row) {
      var i :| 0 <= i < |rows| && rows[i] == row;
      assert window[i] in window && Near(t, db, id, window[i]);
    }
  }

  lemma VerdictIsSomeNear(t: Text, db: Db, id: ReviewId, window: seq<ReviewId>, v: Verdict)
    requires id in db && forall r | r in window :: r in db
    requires BestOf(t, db[id].text, Rows(db, window), v)
    ensures v.isDuplicate <==> SomeNear(t, db, id, window)
  {
    PassingRow(t, db, id, window);
  }

  // ---- runs ----

  datatype Event = Arrive(id: ReviewId, review: Review) | Process(id: ReviewId, window: seq<ReviewId>)

  ghost predicate Enabled(t: Text, db: Db, e: Event) {
    match e
    case Arrive(id, r) => id !in db && r.simhash == ToSigned64(t.signature(r.text)) && !r.isDuplicate
    case Process(id, window) => id in db && IsWindow(db, id, window)
  }

  ghost function Step(t: Text, db: Db, e: Event): Db
    requires Enabled(t, db, e)
  {
    match e
    case Arrive(id, r) => db[id := r]
    case Process(id, window) => Processed(t, db, id, window)
  }

  ghost predicate IsRun(t: Text, db: Db, es: seq<Event>)
    decreases |es|
  {
    es == [] || (Enabled(t, db, es[0]) && IsRun(t, Step(t, db, es[0]), es[1..]))
  }

  ghost function After(t: Text, db: Db, es: seq<Event>): Db
    requires IsRun(t, db, es)
    decreases |es|
  {
    if es == [] then db else After(t, Step(t, db, es[0]), es[1..])
  }

  /** Every stored signature is that of its text. */
  ghost predicate Signed(t: Text, db: Db) {
    forall r | r in db :: db[r].simhash == ToSigned64(t.signature(db[r].text))
  }

  /** Nothing but the flag of a stored review ever changes, and a flag is never taken back. */
  ghost predicate Extends(db: Db, after: Db) {
    forall r | r in db :: r in after && after[r] == db[r].(isDuplicate := after[r].isDuplicate) && (db[r].isDuplicate ==> after[r].isDuplicate)
  }

  /** Restaurant, text, date and signature stay, and a flag is never taken back. */
  predicate Keeps(before: Review, after: Review) {
    && after.restaurant == before.restaurant && after.text == before.text && after.publishedAt == before.publishedAt
    && after.simhash == before.simhash && (before.isDuplicate ==> after.isDuplicate)
  }

  lemma StepExtends(t: Text, db: Db, e: Event)
    requires Signed(t, db) && Enabled(t, db, e)
    ensures Signed(t, Step(t, db, e)) && Extends(db, Step(t, db, e))
  {
  }

  lemma {:induction false} RunExtends(t: Text, db: Db, es: seq<Event>)
    requires Signed(t, db) && IsRun(t, db, es)
    ensures Signed(t, After(t, db, es)) && Extends(db, After(t, db, es))
    ensures forall r | r in db :: r in After(t, db, es) && Keeps(db[r], After(t, db, es)[r])
    decreases |es|
  {
    if es != [] {
      StepExtends(t, db, es[0]);
      RunExtends(t, Step(t, db, es[0]), es[1..]);
    }
  }

  /** Somewhere in the run the review is processed while a near-identical one stands in its window. */
  ghost predicate MeetsNear(t: Text, db: Db, es: seq<Event>, id: ReviewId)
    requires IsRun(t, db, es)
    decreases |es|
  {
    es != [] && ((es[0].Process? && es[0].id == id && SomeNear(t, db, id, es[0].window))
                 || MeetsNear(t, Step(t, db, es[0]), es[1..], id))
  }

  ghost predicate Flagged(db: Db, id: ReviewId) { id in db && db[id].isDuplicate }

  /** In every run a review is flagged exactly if it was, or was processed while some row of its window passed. */
  lemma {:induction false} FlaggedIff(t: Text, db: Db, es: seq<Event>, id: ReviewId)
    requires IsRun(t, db, es)
    ensures Flagged(After(t, db, es), id) <==> Flagged(db, id) || MeetsNear(t, db, es, id)
    decreases |es|
  {
    if es != [] {
      FlaggedIff(t, Step(t, db, es[0]), es[1..], id);
    }
  }

  // ---- two copies ----

  /** Near-identity of stored reviews is symmetric, and does not depend on their flags. */
  lemma NearSymmetric(t: Text, db: Db, a: ReviewId, b: ReviewId)
    requires Signed(t, db) && a in db && b in db
    ensures Near(t, db, a, b) <==> Near(t, db, b, a)
  {
    BothCopiesFlagged(t, db[a].text, db[b].text, "", "");
  }

  /** Somewhere in the run the review is processed while `other` stands in its window. */
  ghost predicate Sees(es: seq<Event>, id: ReviewId, other: ReviewId) {
    exists i :: 0 <= i < |es| && es[i].Process? && es[i].id == id && other in es[i].window
  }

  lemma {:induction false} SeesNear(t: Text, db: Db, es: seq<Event>, id: ReviewId, other: ReviewId)
    requires Signed(t, db) && IsRun(t, db, es) && id in db && other in db && Near(t, db, id, other) && Sees(es, id, other)
    ensures MeetsNear(t, db, es, id)
    decreases |es|
  {
    var i :| 0 <= i < |es| && es[i].Process? && es[i].id == id && other in es[i].window;
    if i > 0 {
      StepExtends(t, db, es[0]);
      assert es[1..][i - 1] == es[i];
      SeesNear(t, Step(t, db, es[0]), es[1..], id, other);
    }
  }

  /** The ranking tables hold the same flags. */
  ghost predicate Reflects(db: Db, reviews: map<ReviewId, Evidence.Review>) {
    forall id | id in db && id in reviews :: reviews[id].isDuplicate == db[id].isDuplicate
  }

  /** A flagged review is evidence of nothing, whatever it mentions. */
  lemma FlaggedIsNoEvidence(db: Db, id: ReviewId, reviews: map<ReviewId, Evidence.Review>,
                            mentions: map<Evidence.MentionKey, Evidence.Mention>, k: Evidence.MentionKey, p: Evidence.Pair)
    requires Flagged(db, id) && Reflects(db, reviews) && k.review == id
    ensures k !in Evidence.EvidenceOf(reviews, mentions, p)
  {
    Evidence.EvidenceIff(reviews, mentions, k, p);
  }

  /**
   * Two near-identical reviews that are both stored before either is processed are both flagged by every
   * run that processes each of them once with the other in its window, in any order: in the ranking
   * tables neither is evidence of any pair.
   */
  lemma NeitherCopyCounts(t: Text, db: Db, es: seq<Event>, a: ReviewId, b: ReviewId, reviews: map<ReviewId, Evidence.Review>,
                          mentions: map<Evidence.MentionKey, Evidence.Mention>, k: Evidence.MentionKey, p: Evidence.Pair)
    requires Signed(t, db) && IsRun(t, db, es) && a in db && b in db && Near(t, db, a, b)
    requires Sees(es, a, b) && Sees(es, b, a)
    ensures Flagged(After(t, db, es), a) && Flagged(After(t, db, es), b)
    ensures Reflects(After(t, db, es), reviews) && (k.review == a || k.review == b) ==> k !in Evidence.EvidenceOf(reviews, mentions, p)
  {
    NearSymmetric(t, db, a, b);
    SeesNear(t, db, es, a, b);
    SeesNear(t, db, es, b, a);
    FlaggedIff(t, db, es, a);
    FlaggedIff(t, db, es, b);
    if Reflects(After(t, db, es), reviews) && (k.review == a || k.review == b) {
      FlaggedIsNoEvidence(After(t, db, es), k.review, reviews, mentions, k, p);
    }
  }

  // ---- restaurants whose reviews all fit the window ----

  lemma WindowIsAll(db: Db, id: ReviewId, window: seq<ReviewId>)
    requires id in db && IsWindow(db, id, window) && |Candidates(db, id)| <= WindowSize
    ensures forall c :: c in window <==> c in Candidates(db, id)
  {
    var listed, all := Listed(window), Candidates(db, id);
    ListedSize(window);
    Stats.SubsetSize(listed, all);
    assert all - listed == {};
    forall c ensures c in window <==> c in all { assert c in listed <==> c in window; }
  }

  /** A window lists other reviews of the same restaurant, none twice, forty at most, and all of them if they are no more. */
  lemma WindowIs(db: Db, id: ReviewId, window: seq<ReviewId>)
    requires id in db && IsWindow(db, id, window)
    ensures |window| <= 40 && forall i, j | 0 <= i < j < |window| :: window[i] != window[j]
    ensures forall r | r in window :: r in db && r != id && db[r].restaurant == db[id].restaurant
    ensures |set r | r in db && r != id && db[r].restaurant == db[id].restaurant| <= 40 ==>
              forall r | r in db && r != id && db[r].restaurant == db[id].restaurant :: r in window
  {
    assert Candidates(db, id) == set r | r in db && r != id && db[r].restaurant == db[id].restaurant;
    if |Candidates(db, id)| <= WindowSize { WindowIsAll(db, id, window); }
  }

  /** The other candidates that are as new or newer. */
  function AsNew(db: Db, id: ReviewId, c: ReviewId): set<ReviewId>
    requires id in db && c in db
  {
    set r | r in Candidates(db, id) && r != c && db[r].publishedAt >= db[c].publishedAt
  }

  /** The window holds the newest: whatever fewer than forty others are as new as is in it. */
  lemma NewestAreInWindow(db: Db, id: ReviewId, window: seq<ReviewId>, c: ReviewId)
    requires id in db && IsWindow(db, id, window) && c in Candidates(db, id) && |AsNew(db, id, c)| < WindowSize
    ensures c in window
  {
    var listed := Listed(window);
    ListedSize(window);
    if c !in window {
      forall r | r in listed ensures r in AsNew(db, id, c) { assert r in window; }
      Stats.SubsetSize(listed, AsNew(db, id, c));
      assert listed <= Candidates(db, id) - {c};
      Stats.SubsetSize(listed, Candidates(db, id) - {c});
    }
  }

  function Listed(window: seq<ReviewId>): set<ReviewId> { set r | r in window }

  lemma {:induction false} ListedSize(window: seq<ReviewId>)
    requires Distinct(window)
    ensures |Listed(window)| == |window|
  {
    if window != [] {
      ListedSize(window[1..]);
      assert window == [window[0]] + window[1..];
      assert window[0] !in Listed(window[1..]);
      assert Listed(window) == Listed(window[1..]) + {window[0]};
    }
  }

  /** Some other stored review of the restaurant is near-identical. */
  ghost predicate HasNear(t: Text, db: Db, id: ReviewId) {
    id in db && exists r :: r in Candidates(db, id) && Near(t, db, id, r)
  }

  /** Somewhere in the run the review is processed while a near-identical one is stored. */
  ghost predicate ProcessedBesideNear(t: Text, db: Db, es: seq<Event>, id: ReviewId)
    requires IsRun(t, db, es)
    decreases |es|
  {
    es != [] && ((es[0].Process? && es[0].id == id && HasNear(t, db, id)) || ProcessedBesideNear(t, Step(t, db, es[0]), es[1..], id))
  }

  /** The restaurant never has more reviews than a window and the review itself. */
  ghost predicate StaysSmall(t: Text, db: Db, es: seq<Event>, id: ReviewId)
    requires IsRun(t, db, es)
    decreases |es|
  {
    (id in db ==> |Candidates(db, id)| <= WindowSize) && (es != [] ==> StaysSmall(t, Step(t, db, es[0]), es[1..], id))
  }

  lemma {:induction false} MeetsIsBeside(t: Text, db: Db, es: seq<Event>, id: ReviewId)
    requires IsRun(t, db, es) && StaysSmall(t, db, es, id)
    ensures MeetsNear(t, db, es, id) <==> ProcessedBesideNear(t, db, es, id)
    decreases |es|
  {
    if es != [] {
      MeetsIsBeside(t, Step(t, db, es[0]), es[1..], id);
      if es[0].Process? && es[0].id == id { WindowIsAll(db, id, es[0].window); }
    }
  }

  /**
   * In a restaurant of at most forty-one reviews, a review that arrived unflagged ends flagged exactly
   * if it was ever processed while a near-identical one was stored. So of two copies the first to
   * arrive survives only by being processed before the second arrives.
   */
  lemma SmallRestaurantFlaggedIff(t: Text, es: seq<Event>, id: ReviewId)
    requires IsRun(t, map[], es) && StaysSmall(t, map[], es, id)
    ensures Flagged(After(t, map[], es), id) <==> ProcessedBesideNear(t, map[], es, id)
  {
    FlaggedIff(t, map[], es, id);
    MeetsIsBeside(t, map[], es, id);
  }
}
