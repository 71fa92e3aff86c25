/** What an upsert and a stored review write, field by field, and which of two writers wins. */
module UpsertLaws {
  import opened Wrappers
  import opened Strings
  import opened Resolver
  import opened Ingestion
  import ReviewIngestion

  lemma FoundAt(rows: seq<SourceRow>, i: nat)
    requires i < |rows| && forall j, k | 0 <= j < k < |rows| :: rows[j].key != rows[k].key
    ensures FindSource(rows, rows[i].key) == Some(i)
  {
  }

  /** Everything but one restaurant is as it was. */
  ghost predicate OnlyChanges(before: map<Id, Restaurant>, after: map<Id, Restaurant>, id: Id) {
    after.Keys == before.Keys && id in before && forall r | r in before && r != id :: after[r] == before[r]
  }

  /**
   * A known place whose payload changed takes the payload's name, normal form and position; it keeps its
   * details only where the payload has none, and takes a rating exactly from Google.
   */
  lemma KnownTakesPayload(t: Text, db: Tables, city: CityId, place: Place, candidates: seq<Candidate>, newId: Id, i: nat)
    requires Valid(db) && i < |db.sources| && db.sources[i].key == place.key && db.sources[i].hash != t.hash(place)
    ensures var o, id := Upsert(t, db, city, place, candidates, newId), db.sources[i].restaurant;
            && o.action == Updated && o.restaurant == Some(id) && OnlyChanges(db.restaurants, o.db.restaurants, id)
            && o.db.sources == db.sources[i := SourceRow(place.key, id, t.hash(place))]
            && o.db.aliases == db.aliases && o.db.conflicts == db.conflicts
            && var before, r := db.restaurants[id], o.db.restaurants[id];
               && r.name == place.name && r.normalizedName == t.env.normalize(place.name) && r.at == place.at
               && r.info == (if place.info.Some? then place.info else before.info)
               && r.rating == (if place.key.0 == "google" then place.rating else before.rating)
               && r.slug == before.slug && r.city == before.city && r.confidence == before.confidence
  {
    FoundAt(db.sources, i);
  }

  /** An unchanged payload changes nothing. */
  lemma KnownIsSkipped(t: Text, db: Tables, city: CityId, place: Place, candidates: seq<Candidate>, newId: Id, i: nat)
    requires Valid(db) && i < |db.sources| && db.sources[i].key == place.key && db.sources[i].hash == t.hash(place)
    ensures Upsert(t, db, city, place, candidates, newId) == Outcome(db, Some(db.sources[i].restaurant), Skipped)
  {
    FoundAt(db.sources, i);
  }

  /** What the payload decides about a row. */
  ghost predicate SamePayload(a: Restaurant, b: Restaurant) {
    a.name == b.name && a.normalizedName == b.normalizedName && a.at == b.at
  }

  /**
   * The last writer wins: of two payloads for one known key the second decides the name, the normal form
   * and the position, as if the first had never come; so it does for the details it has, and for Google's rating.
   */
  lemma LastWriterWins(t: Text, db: Tables, city: CityId, first: Place, second: Place, candidates: seq<Candidate>, newId: Id, i: nat)
    requires Valid(db) && i < |db.sources| && db.sources[i].key == first.key == second.key
    requires t.hash(first) != t.hash(second) && db.sources[i].hash != t.hash(first) && db.sources[i].hash != t.hash(second)
    requires Valid(Upsert(t, db, city, first, candidates, newId).db)
    ensures var id := db.sources[i].restaurant;
            var once := Upsert(t, db, city, first, candidates, newId).db;
            var twice, alone := Upsert(t, once, city, second, candidates, newId).db, Upsert(t, db, city, second, candidates, newId).db;
            && id in twice.restaurants && id in alone.restaurants
            && var a, b := twice.restaurants[id], alone.restaurants[id];
               && SamePayload(a, b) && twice.sources == alone.sources
               && (second.info.Some? ==> a.info == b.info) && (second.key.0 == "google" ==> a.rating == b.rating)
  {
    KnownTakesPayload(t, db, city, first, candidates, newId, i);
    KnownTakesPayload(t, db, city, second, candidates, newId, i);
    var once := Upsert(t, db, city, first, candidates, newId).db;
    KnownTakesPayload(t, once, city, second, candidates, newId, i);
  }

  ghost predicate UnknownKey(db: Tables, key: SourceKey) { forall i | 0 <= i < |db.sources| :: db.sources[i].key != key }

  /** A new source for a restaurant that the resolver knows: the restaurant gains confidence, Google's rating and an alias, and nothing else. */
  lemma MatchedIsEnriched(t: Text, db: Tables, city: CityId, place: Place, candidates: seq<Candidate>, newId: Id, id: Id)
    requires Valid(db) && UnknownKey(db, place.key) && id in db.restaurants
    requires var r := Resolve(t.env, Incoming(place.name, Some(place.at), place.key.0, place.key.1), candidates);
             !r.via.Ambiguous? && r.matched == Some(id)
    ensures var m := Resolve(t.env, Incoming(place.name, Some(place.at), place.key.0, place.key.1), candidates);
            var o, before, norm := Upsert(t, db, city, place, candidates, newId), db.restaurants[id], t.env.normalize(place.name);
            && o.action == Updated && o.restaurant == Some(id) && OnlyChanges(db.restaurants, o.db.restaurants, id)
            && o.db.sources == db.sources + [SourceRow(place.key, id, t.hash(place))] && o.db.conflicts == db.conflicts
            && o.db.aliases == db.aliases + (if norm != "" && norm != before.normalizedName then {(id, norm)} else {})
            && var r := o.db.restaurants[id];
               && SamePayload(r, before) && r.info == before.info && r.slug == before.slug && r.city == before.city
               && r.confidence == (if before.confidence >= m.confidence then before.confidence else m.confidence)
               && r.rating == (if place.key.0 == "google" then place.rating else before.rating)
  {
  }

  /** A place that matches nothing becomes a restaurant with the payload's fields and the first free slug of its city. */
  lemma CreatedIsPlace(t: Text, db: Tables, city: CityId, place: Place, candidates: seq<Candidate>, newId: Id)
    requires Valid(db) && UnknownKey(db, place.key) && newId !in db.restaurants
    requires var r := Resolve(t.env, Incoming(place.name, Some(place.at), place.key.0, place.key.1), candidates);
             !r.via.Ambiguous? && r.matched.None?
    ensures var m := Resolve(t.env, Incoming(place.name, Some(place.at), place.key.0, place.key.1), candidates);
            var o := Upsert(t, db, city, place, candidates, newId);
            && o.action == Created && o.restaurant == Some(newId)
            && o.db.restaurants.Keys == db.restaurants.Keys + {newId} && (forall r | r in db.restaurants :: o.db.restaurants[r] == db.restaurants[r])
            && o.db.sources == db.sources + [SourceRow(place.key, newId, t.hash(place))]
            && o.db.aliases == db.aliases && o.db.conflicts == db.conflicts
            && var r := o.db.restaurants[newId];
               && r.city == city && r.name == place.name && r.normalizedName == t.env.normalize(place.name) && r.at == place.at
               && r.info == place.info && r.rating == (if place.key.0 == "google" then place.rating else None) && r.confidence == m.confidence
               && (forall s | s in db.restaurants && db.restaurants[s].city == city :: db.restaurants[s].slug != r.slug)
               && ((forall s | s in db.restaurants && db.restaurants[s].city == city :: db.restaurants[s].slug != t.slugify(place.name)) ==>
                     r.slug == t.slugify(place.name))
  {
    var taken := SlugsOf(db.restaurants, city);
    forall s | s in db.restaurants && db.restaurants[s].city == city ensures db.restaurants[s].slug in taken {}
  }

  /** A refused place is remembered, and touches nothing. */
  lemma RefusedTouchesNothing(t: Text, db: Tables, city: CityId, place: Place, candidates: seq<Candidate>, newId: Id)
    requires Valid(db) && UnknownKey(db, place.key)
    requires Resolve(t.env, Incoming(place.name, Some(place.at), place.key.0, place.key.1), candidates).via.Ambiguous?
    ensures var o := Upsert(t, db, city, place, candidates, newId);
            && o.action == Conflicted && o.restaurant.None? && o.db == db.(conflicts := o.db.conflicts)
            && |o.db.conflicts| == |db.conflicts| + 1 && o.db.conflicts[..|db.conflicts|] == db.conflicts
            && o.db.conflicts[|db.conflicts|].place == place && o.db.conflicts[|db.conflicts|].city == city
  {
  }

  /** Slugs run base, base-2, base-3. */
  lemma SlugsAre(base: string)
    ensures SlugAt(base, 0) == base && SlugAt(base, 1) == base + "-2" && SlugAt(base, 2) == base + "-3" && SlugAt(base, 9) == base + "-10"
  {
    assert Decimal(10) == Decimal(1) + [Digit(0)] == "1" + "0" == "10";
  }

  // ---- stored reviews ----

  /**
   * A review is stored exactly if it has a text, a new key and a new fingerprint and a restaurant was found for
   * it; that restaurant's count goes up by one. Otherwise nothing but the number of refusals can change.
   */
  lemma StoredReviewIs(t: ReviewIngestion.Text, db: ReviewIngestion.Tables, raw: ReviewIngestion.Raw, candidates: seq<Candidate>, id: ReviewIngestion.ReviewId)
    requires ReviewIngestion.Valid(db) && id !in db.reviews
    ensures var (after, created) := ReviewIngestion.Store(t, db, raw, candidates, id);
            var target := ReviewIngestion.TargetOf(t, db.restaurants, raw, candidates);
            var unseen := raw.body != "" && (forall i | 0 <= i < |db.sources| :: db.sources[i].key != raw.key)
                          && (forall r | r in db.reviews :: db.reviews[r].fingerprint != raw.fingerprint);
            && (created <==> unseen && target.Found?)
            && after.restaurants == db.restaurants
            && after.conflicts == db.conflicts + (if unseen && target.Refused? then 1 else 0)
            && if created then
                 && after.reviews == db.reviews[id := ReviewIngestion.Review(target.id, raw.fingerprint)]
                 && after.sources == db.sources + [ReviewIngestion.SourceRow(raw.key, id)]
                 && after.counts == db.counts[target.id := ReviewIngestion.CountOf(db.counts, target.id) + 1]
                 && after.aliases == db.aliases + target.aliases
               else after == db.(conflicts := after.conflicts)
  {
  }

  /** A hint that is matched well enough places the item, and one that is ambiguous refuses it, whatever the prose says. */
  lemma HintBeforeProse(t: ReviewIngestion.Text, restaurants: map<Id, string>, raw: ReviewIngestion.Raw, candidates: seq<Candidate>)
    requires raw.hint != ""
    ensures var r := Resolve(t.env, Incoming(raw.hint, raw.at, raw.key.0, ""), candidates);
            && (r.matched.Some? && r.confidence >= 0.9 && r.matched.value in restaurants ==>
                  var target := ReviewIngestion.TargetOf(t, restaurants, raw, candidates);
                  && target.Found? && target.id == r.matched.value
                  && target.aliases == (var norm := t.env.normalize(raw.hint);
                                        if norm != "" && norm != restaurants[target.id] then {(target.id, norm)} else {}))
            && (r.isAmbiguous && (r.matched.None? || r.confidence < 0.9) ==> ReviewIngestion.TargetOf(t, restaurants, raw, candidates).Refused?)
  {
  }

  /** Without a usable hint the prose decides, and it learns no alias. */
  lemma ProseOtherwise(t: ReviewIngestion.Text, restaurants: map<Id, string>, raw: ReviewIngestion.Raw, candidates: seq<Candidate>)
    requires var r := Resolve(t.env, Incoming(raw.hint, raw.at, raw.key.0, ""), candidates);
             raw.hint == "" || ((r.matched.None? || r.confidence < 0.9) && !r.isAmbiguous)
    ensures var target, named := ReviewIngestion.TargetOf(t, restaurants, raw, candidates), t.mentionOf(raw.body, candidates);
            if named.Some? && named.value in restaurants then target == ReviewIngestion.Found(named.value, {}) else target.Dropped?
  {
  }

  // ---- what the two invariants say ----

  /** Places: one restaurant a source key, slugs told apart within a city, and every source row names a restaurant. No rows are in order. */
  lemma PlacesInOrder(db: Tables)
    ensures Valid(db) <==>
              && (forall i | 0 <= i < |db.sources| :: db.sources[i].restaurant in db.restaurants)
              && (forall i, j | 0 <= i < |db.sources| && 0 <= j < |db.sources| && db.sources[i].key == db.sources[j].key :: i == j)
              && (forall r, s | r in db.restaurants && s in db.restaurants && db.restaurants[r].city == db.restaurants[s].city
                                && db.restaurants[r].slug == db.restaurants[s].slug :: r == s)
    ensures Valid(Tables(map[], [], {}, []))
  {
  }

  /** Reviews: one a source key, one a text, and for each restaurant as many as its count says. No rows are in order. */
  lemma ReviewsInOrder(db: ReviewIngestion.Tables)
    ensures ReviewIngestion.Valid(db) ==>
              && (forall i, j | 0 <= i < |db.sources| && 0 <= j < |db.sources| && db.sources[i].key == db.sources[j].key :: i == j)
              && (forall i | 0 <= i < |db.sources| :: db.sources[i].review in db.reviews)
              && (forall q, r | q in db.reviews && r in db.reviews && db.reviews[q].fingerprint == db.reviews[r].fingerprint :: q == r)
              && (forall c :: (if c in db.counts then db.counts[c] else 0) == |set r | r in db.reviews && db.reviews[r].restaurant == c|)
    ensures forall restaurants :: ReviewIngestion.Valid(ReviewIngestion.Tables(restaurants, map[], [], map[], {}, 0))
  {
    if ReviewIngestion.Valid(db) {
      forall c ensures (if c in db.counts then db.counts[c] else 0) == |set r | r in db.reviews && db.reviews[r].restaurant == c| {
        assert ReviewIngestion.CountIsRight(db.counts, db.reviews, c);
        assert ReviewIngestion.ReviewsOf(db.reviews, c) == set r | r in db.reviews && db.reviews[r].restaurant == c;
      }
    }
    forall c ensures ReviewIngestion.CountIsRight(map[], map[], c) { assert ReviewIngestion.ReviewsOf(map[], c) == {}; }
  }
}
