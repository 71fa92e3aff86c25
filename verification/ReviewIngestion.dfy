/** Storing a fetched review: at most once a source key, at most once a text, or not at all. */
module ReviewIngestion {
  import opened Wrappers
  import opened Resolver

  type ReviewId = nat

  /** A fetched item. `body` is its cleaned text; an empty hint is no hint. */
  datatype Raw = Raw(key: SourceKey, body: string, fingerprint: string, hint: string, at: Option<Point>)

  datatype Review = Review(restaurant: Id, fingerprint: string)

  datatype SourceRow = SourceRow(key: SourceKey, review: ReviewId)

  datatype Tables = Tables(
    restaurants: map<Id, string>,   // normalised names
    reviews: map<ReviewId, Review>, sources: seq<SourceRow>, counts: map<Id, nat>, aliases: set<(Id, string)>, conflicts: nat)

  /** `mentionOf` finds the one restaurant a text names. */
  datatype Text = Text(env: Env, mentionOf: (string, seq<Candidate>) -> Option<Id>)

  datatype Target = Found(id: Id, aliases: set<(Id, string)>) | Dropped | Refused

  const Bar: real := 0.9

  function HintOf(raw: Raw): Incoming { Incoming(raw.hint, raw.at, raw.key.0, "") }

  function AliasFor(t: Text, restaurants: map<Id, string>, id: Id, hint: string): set<(Id, string)> {
    var norm := t.env.normalize(hint);
    if id in restaurants && norm != restaurants[id] && norm != "" then {(id, norm)} else {}
  }

  /** The restaurant a text-only item is evidence for, if that can be told. */
  function TargetOf(t: Text, restaurants: map<Id, string>, raw: Raw, candidates: seq<Candidate>): Target {
    var r := Resolve(t.env, HintOf(raw), candidates);
    if raw.hint != "" && r.matched.Some? && r.confidence >= Bar then
      if r.matched.value in restaurants then Found(r.matched.value, AliasFor(t, restaurants, r.matched.value, raw.hint)) else Dropped
    else if raw.hint != "" && r.isAmbiguous then Refused
    else match t.mentionOf(raw.body, candidates)
         case Some(id) => if id in restaurants then Found(id, {}) else Dropped
         case None => Dropped
  }

  predicate KnownKey(db: Tables, key: SourceKey) { exists i | 0 <= i < |db.sources| :: db.sources[i].key == key }

  predicate KnownText(db: Tables, fingerprint: string) { exists r | r in db.reviews :: db.reviews[r].fingerprint == fingerprint }

  predicate Known(db: Tables, raw: Raw) { KnownKey(db, raw.key) || KnownText(db, raw.fingerprint) }

  function CountOf(counts: map<Id, nat>, c: Id): nat { if c in counts then counts[c] else 0 }

  /** The tables after `raw` was stored as review `id`. */
  function Added(db: Tables, raw: Raw, id: ReviewId, restaurant: Id, aliases: set<(Id, string)>): Tables {
    db.(reviews := db.reviews[id := Review(restaurant, raw.fingerprint)],
        sources := db.sources + [SourceRow(raw.key, id)],
        counts := db.counts[restaurant := CountOf(db.counts, restaurant) + 1],
        aliases := db.aliases + aliases)
  }

  /** The tables afterwards, and whether a review was created. */
  function Store(t: Text, db: Tables, raw: Raw, candidates: seq<Candidate>, id: ReviewId): (Tables, bool) {
    if raw.body == "" || Known(db, raw) then (db, false)
    else match TargetOf(t, db.restaurants, raw, candidates)
         case Found(restaurant, aliases) => (Added(db, raw, id, restaurant, aliases), true)
         case Dropped => (db, false)
         case Refused => (db.(conflicts := db.conflicts + 1), false)
  }

  // ---- what every call keeps ----

  function ReviewsOf(reviews: map<ReviewId, Review>, restaurant: Id): set<ReviewId> {
    set r | r in reviews && reviews[r].restaurant == restaurant
  }

  ghost predicate CountIsRight(counts: map<Id, nat>, reviews: map<ReviewId, Review>, c: Id) {
    CountOf(counts, c) == |ReviewsOf(reviews, c)|
  }

  ghost predicate Valid(db: Tables) {
    && (forall i, j | 0 <= i < j < |db.sources| :: db.sources[i].key != db.sources[j].key)
    && (forall i | 0 <= i < |db.sources| :: db.sources[i].review in db.reviews)
    && (forall q, r | q in db.reviews && r in db.reviews && db.reviews[q].fingerprint == db.reviews[r].fingerprint :: q == r)
    && (forall c :: CountIsRight(db.counts, db.reviews, c))
  }

  lemma ReviewAdded(reviews: map<ReviewId, Review>, id: ReviewId, r: Review, c: Id)
    requires id !in reviews
    ensures |ReviewsOf(reviews[id := r], c)| == |ReviewsOf(reviews, c)| + (if c == r.restaurant then 1 else 0)
  {
    assert ReviewsOf(reviews[id := r], c) == ReviewsOf(reviews, c) + (if c == r.restaurant then {id} else {});
  }

  lemma AddedKeeps(db: Tables, raw: Raw, id: ReviewId, restaurant: Id, aliases: set<(Id, string)>)
    requires Valid(db) && id !in db.reviews && !Known(db, raw)
    ensures Valid(Added(db, raw, id, restaurant, aliases))
  {
    var after := Added(db, raw, id, restaurant, aliases);
    forall c ensures CountIsRight(after.counts, after.reviews, c) {
      assert CountIsRight(db.counts, db.reviews, c);
      ReviewAdded(db.reviews, id, Review(restaurant, raw.fingerprint), c);
    }
  }

  /** One review a source key, one a text, and review counts that count. */
  lemma StoreKeeps(t: Text, db: Tables, raw: Raw, candidates: seq<Candidate>, id: ReviewId)
    requires Valid(db) && id !in db.reviews
    ensures Valid(Store(t, db, raw, candidates, id).0)
  {
    if raw.body != "" && !Known(db, raw) {
      match TargetOf(t, db.restaurants, raw, candidates)
      case Found(restaurant, aliases) => AddedKeeps(db, raw, id, restaurant, aliases);
      case _ =>
    }
  }

  // ---- storing again ----

  lemma AddedIsKnown(db: Tables, raw: Raw, id: ReviewId, restaurant: Id, aliases: set<(Id, string)>)
    ensures KnownKey(Added(db, raw, id, restaurant, aliases), raw.key)
  {
    var after := Added(db, raw, id, restaurant, aliases);
    assert after.sources[|db.sources|].key == raw.key;
  }

  /**
   * Storing an item again, with the same candidates, creates nothing, and changes nothing at all
   * unless its hint was refused: then every repetition records the refusal once more.
   */
  lemma StoringAgain(t: Text, db: Tables, raw: Raw, candidates: seq<Candidate>, id: ReviewId, again: ReviewId)
    ensures var (once, _) := Store(t, db, raw, candidates, id);
            var (twice, created) := Store(t, once, raw, candidates, again);
            && !created
            && (twice == once <==> raw.body == "" || Known(db, raw) || !TargetOf(t, db.restaurants, raw, candidates).Refused?)
  {
    if raw.body != "" && !Known(db, raw) {
      match TargetOf(t, db.restaurants, raw, candidates)
      case Found(restaurant, aliases) => AddedIsKnown(db, raw, id, restaurant, aliases);
      case Dropped =>
      case Refused => assert !Known(db.(conflicts := db.conflicts + 1), raw);
    }
  }

  /** Without coordinates a hint never reaches the bar, so such an item is placed by its prose or not at all. */
  lemma HintNeedsCoordinates(t: Text, restaurants: map<Id, string>, raw: Raw, candidates: seq<Candidate>)
    requires t.env.Valid() && DistinctIds(candidates) && raw.at.None?
    requires TargetOf(t, restaurants, raw, candidates).Found?
    ensures t.mentionOf(raw.body, candidates) == Some(TargetOf(t, restaurants, raw, candidates).id)
  {
    NoCoordinates(t.env, HintOf(raw), candidates);
  }

  // ---- the imperative form ----

  class ReviewStore {
    var restaurants: map<Id, string>
    var reviews: map<ReviewId, Review>
    var sources: seq<SourceRow>
    var counts: map<Id, nat>
    var aliases: set<(Id, string)>
    var conflicts: nat

    function View(): Tables
      reads this
    {
      Tables(restaurants, reviews, sources, counts, aliases, conflicts)
    }

    method StoreReview(t: Text, raw: Raw, candidates: seq<Candidate>, id: ReviewId) returns (created: bool)
      requires Valid(View()) && id !in reviews
      modifies this
      ensures (View(), created) == Store(t, old(View()), raw, candidates, id)
      ensures Valid(View())
    {
      StoreKeeps(t, View(), raw, candidates, id);
      if raw.body == "" {
        return false;
      }
      if KnownKey(View(), raw.key) || KnownText(View(), raw.fingerprint) {
        return false;
      }
      var target := ResolveTarget(t, raw, candidates);
      if target.Found? {
        Add(raw, id, target.id, target.aliases);
        return true;
      }
      if target.Refused? {
        conflicts := conflicts + 1;
      }
      return false;
    }

    method Add(raw: Raw, id: ReviewId, restaurant: Id, more: set<(Id, string)>)
      modifies this`reviews, this`sources, this`counts, this`aliases
      ensures View() == Added(old(View()), raw, id, restaurant, more)
    {
      var n := if restaurant in counts then counts[restaurant] else 0;
      reviews := reviews[id := Review(restaurant, raw.fingerprint)];
      sources := sources + [SourceRow(raw.key, id)];
      counts := counts[restaurant := n + 1];
      aliases := aliases + more;
    }

    method ResolveTarget(t: Text, raw: Raw, candidates: seq<Candidate>) returns (target: Target)
      ensures target == TargetOf(t, restaurants, raw, candidates)
    {
      if raw.hint != "" {
        var r := ResolveCandidate(t.env, HintOf(raw), candidates);
        if r.matched.Some? && r.confidence >= Bar {
          if r.matched.value !in restaurants {
            return Dropped;
          }
          return Found(r.matched.value, AliasFor(t, restaurants, r.matched.value, raw.hint));
        }
        if r.isAmbiguous {
          return Refused;
        }
      }
      var id := t.mentionOf(raw.body, candidates);
      if id.None? || id.value !in restaurants {
        return Dropped;
      }
      return Found(id.value, {});
    }
  }
}
