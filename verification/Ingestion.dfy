/** Idempotent upserts of scraped places: one restaurant a source key, one slug a restaurant in its city. */
module Ingestion {
  import opened Wrappers
  import opened Strings
  import opened Sorting
  import opened Stats
  import opened Resolver

  // ---- unique slugs ----

  /** The slugs tried in turn: `base`, `base-2`, `base-3`, … */
  function SlugAt(base: string, i: nat): string {
    if i == 0 then base else base + "-" + Decimal(i + 1)
  }

  lemma SlugAtInjective(base: string, i: nat, j: nat)
    requires SlugAt(base, i) == SlugAt(base, j)
    ensures i == j
  {
    if i > 0 && j > 0 {
      assert SlugAt(base, i)[|base| + 1..] == Decimal(i + 1);
      assert SlugAt(base, j)[|base| + 1..] == Decimal(j + 1);
      DecimalInjective(i + 1, j + 1);
    } else {
      assert |SlugAt(base, i)| == |SlugAt(base, j)|;
    }
  }

  ghost function FirstSlugs(base: string, n: nat): (r: set<string>)
    ensures forall s :: s in r <==> exists i: nat :: i < n && s == SlugAt(base, i)
  {
    if n == 0 then {} else FirstSlugs(base, n - 1) + {SlugAt(base, n - 1)}
  }

  lemma {:induction false} FirstSlugsSize(base: string, n: nat)
    ensures |FirstSlugs(base, n)| == n
  {
    if n > 0 {
      FirstSlugsSize(base, n - 1);
      if SlugAt(base, n - 1) in FirstSlugs(base, n - 1) {
        var i: nat :| i < n - 1 && SlugAt(base, n - 1) == SlugAt(base, i);
        SlugAtInjective(base, n - 1, i);
      }
    }
  }

  /** The search ends: it cannot have passed more taken slugs than there are. */
  lemma TakenBound(taken: set<string>, base: string, n: nat)
    requires forall i: nat | i < n :: SlugAt(base, i) in taken
    ensures n <= |taken|
  {
    FirstSlugsSize(base, n);
    SubsetSize(FirstSlugs(base, n), taken);
  }

  function FirstFree(taken: set<string>, base: string, n: nat): (slug: string)
    requires forall i: nat | i < n :: SlugAt(base, i) in taken
    ensures slug !in taken
    ensures exists k: nat :: n <= k && slug == SlugAt(base, k) && forall i: nat | i < k :: SlugAt(base, i) in taken
    decreases |taken| - n
  {
    TakenBound(taken, base, n);
    if SlugAt(base, n) !in taken then SlugAt(base, n) else
      TakenBound(taken, base, n + 1);
      FirstFree(taken, base, n + 1)
  }

  /** The first free slug in the order of the suffixes. */
  method UniqueSlug(taken: set<string>, base: string) returns (slug: string)
    ensures slug == FirstFree(taken, base, 0)
    ensures slug !in taken
  {
    slug := base;
    var suffix := 2;
    while slug in taken
      invariant suffix >= 2 && slug == SlugAt(base, suffix - 2)
      invariant forall i: nat | i < suffix - 2 :: SlugAt(base, i) in taken
      invariant FirstFree(taken, base, 0) == FirstFree(taken, base, suffix - 2)
      decreases |taken| + 2 - suffix
    {
      TakenBound(taken, base, suffix - 1);
      slug := base + "-" + Decimal(suffix);
      suffix := suffix + 1;
    }
  }

  // ---- tables ----

  type CityId = nat

  datatype Place = Place(key: SourceKey, name: string, at: Point, info: Option<string>, rating: Option<real>)
  {
    predicate FromGoogle() { key.0 == "google" }
  }

  datatype Restaurant = Restaurant(
    city: CityId, name: string, slug: string, normalizedName: string, at: Point, info: Option<string>,
    rating: Option<real>, confidence: real)

  datatype SourceRow = SourceRow(key: SourceKey, restaurant: Id, hash: string)

  datatype Conflict = Conflict(city: CityId, candidateA: Option<Id>, candidateB: Option<Id>, place: Place)

  datatype Tables = Tables(
    restaurants: map<Id, Restaurant>, sources: seq<SourceRow>, aliases: set<(Id, string)>, conflicts: seq<Conflict>)

  /** `hash` fingerprints a payload; `slugify` makes the base slug. */
  datatype Text = Text(env: Env, hash: Place -> string, slugify: string -> string)

  datatype Action = Created | Updated | Skipped | Conflicted

  function FindSource(rows: seq<SourceRow>, key: SourceKey): (r: Option<nat>)
    ensures r.Some? ==> r.value < |rows| && rows[r.value].key == key
    ensures r.None? <==> forall i | 0 <= i < |rows| :: rows[i].key != key
  {
    if rows == [] then None else if rows[0].key == key then Some(0) else
      match FindSource(rows[1..], key) case None => None case Some(i) => Some(i + 1)
  }

  function SlugsOf(restaurants: map<Id, Restaurant>, city: CityId): set<string> {
    set r | r in restaurants && restaurants[r].city == city :: restaurants[r].slug
  }

  function Larger(x: real, y: real): real { if x >= y then x else y }

  /** The foreign key of a source row. */
  ghost predicate Linked(db: Tables) {
    forall i | 0 <= i < |db.sources| :: db.sources[i].restaurant in db.restaurants
  }

  /** (source, external id) names one restaurant, and slugs are unique per city. */
  ghost predicate Valid(db: Tables) {
    && Linked(db)
    && (forall i, j | 0 <= i < j < |db.sources| :: db.sources[i].key != db.sources[j].key)
    && (forall r, s | r in db.restaurants && s in db.restaurants && r != s && db.restaurants[r].city == db.restaurants[s].city ::
          db.restaurants[r].slug != db.restaurants[s].slug)
  }

  // ---- one upsert ----

  function Refreshed(t: Text, r: Restaurant, place: Place): Restaurant {
    r.(name := place.name, normalizedName := t.env.normalize(place.name), at := place.at,
       info := if place.info.Some? then place.info else r.info,
       rating := if place.FromGoogle() then place.rating else r.rating)
  }

  function Enriched(r: Restaurant, place: Place, confidence: real): Restaurant {
    r.(confidence := Larger(r.confidence, confidence), rating := if place.FromGoogle() then place.rating else r.rating)
  }

  function AliasFor(t: Text, r: Restaurant, id: Id, place: Place): set<(Id, string)> {
    var norm := t.env.normalize(place.name);
    if norm != r.normalizedName && norm != "" then {(id, norm)} else {}
  }

  function NewRestaurant(t: Text, db: Tables, city: CityId, place: Place, confidence: real): Restaurant {
    Restaurant(city, place.name, FirstFree(SlugsOf(db.restaurants, city), t.slugify(place.name), 0),
               t.env.normalize(place.name), place.at, place.info, if place.FromGoogle() then place.rating else None, confidence)
  }

  datatype Outcome = Outcome(db: Tables, restaurant: Option<Id>, action: Action)

  function Incomer(place: Place): Incoming { Incoming(place.name, Some(place.at), place.key.0, place.key.1) }

  /** What an upsert does; a restaurant it creates gets the identifier `newId`. */
  ghost function Upsert(t: Text, db: Tables, city: CityId, place: Place, candidates: seq<Candidate>, newId: Id): Outcome
    requires Linked(db)
  {
    match FindSource(db.sources, place.key)
    case Some(i) => UpsertKnown(t, db, place, i)
    case None => UpsertUnknown(t, db, city, place, Resolve(t.env, Incomer(place), candidates), newId)
  }

  ghost function UpsertKnown(t: Text, db: Tables, place: Place, i: nat): Outcome
    requires i < |db.sources| && Linked(db)
  {
    var row := db.sources[i];
    if row.hash == t.hash(place) then Outcome(db, Some(row.restaurant), Skipped)
    else Outcome(db.(restaurants := db.restaurants[row.restaurant := Refreshed(t, db.restaurants[row.restaurant], place)],
                     sources := db.sources[i := row.(hash := t.hash(place))]),
                 Some(row.restaurant), Updated)
  }

  function UpsertUnknown(t: Text, db: Tables, city: CityId, place: Place, r: Resolution, newId: Id): Outcome {
    if r.via.Ambiguous? then
      Outcome(db.(conflicts := db.conflicts + [Conflict(city, r.matched, r.runnerUp, place)]), None, Conflicted)
    else if r.matched.Some? then
      if r.matched.value !in db.restaurants then Outcome(db, None, Skipped) else
        var id, was := r.matched.value, db.restaurants[r.matched.value];
        Outcome(db.(restaurants := db.restaurants[id := Enriched(was, place, r.confidence)],
                    sources := db.sources + [SourceRow(place.key, id, t.hash(place))],
                    aliases := db.aliases + AliasFor(t, was, id, place)),
                Some(id), Updated)
    else
      Outcome(db.(restaurants := db.restaurants[newId := NewRestaurant(t, db, city, place, r.confidence)],
                  sources := db.sources + [SourceRow(place.key, newId, t.hash(place))]),
              Some(newId), Created)
  }

  class Ingest {
    var restaurants: map<Id, Restaurant>
    var sources: seq<SourceRow>
    var aliases: set<(Id, string)>
    var conflicts: seq<Conflict>

    function View(): Tables
      reads this
    {
      Tables(restaurants, sources, aliases, conflicts)
    }

    method UpsertPlace(t: Text, city: CityId, place: Place, candidates: seq<Candidate>) returns (id: Option<Id>, action: Action, ghost newId: Id)
      requires Valid(View())
      modifies this
      ensures newId !in old(restaurants)
      ensures Outcome(View(), id, action) == Upsert(t, old(View()), city, place, candidates, newId)
      ensures Valid(View())
    {
      var freshId := FreshId(restaurants.Keys);
      newId := freshId;
      UpsertKeeps(t, View(), city, place, candidates, newId);
      var hash := t.hash(place);
      var found := FindSource(sources, place.key);
      if found.Some? {
        var i := found.value;
        var owner := sources[i].restaurant;
        if sources[i].hash == hash {
          return Some(owner), Skipped, newId;
        }
        restaurants := restaurants[owner := Refreshed(t, restaurants[owner], place)];
        sources := sources[i := sources[i].(hash := hash)];
        return Some(owner), Updated, newId;
      }
      var r := ResolveCandidate(t.env, Incomer(place), candidates);
      if r.via.Ambiguous? {
        conflicts := conflicts + [Conflict(city, r.matched, r.runnerUp, place)];
        return None, Conflicted, newId;
      }
      if r.matched.Some? {
        var owner := r.matched.value;
        if owner !in restaurants {
          return None, Skipped, newId;
        }
        var known := restaurants[owner];
        restaurants := restaurants[owner := Enriched(known, place, r.confidence)];
        aliases := aliases + AliasFor(t, known, owner, place);
        sources := sources + [SourceRow(place.key, owner, hash)];
        return Some(owner), Updated, newId;
      }
      var slug := UniqueSlug(SlugsOf(restaurants, city), t.slugify(place.name));
      var created := Restaurant(city, place.name, slug, t.env.normalize(place.name), place.at, place.info,
                                if place.FromGoogle() then place.rating else None, r.confidence);
      restaurants := restaurants[freshId := created];
      sources := sources + [SourceRow(place.key, freshId, hash)];
      return Some(freshId), Created, newId;
    }
  }

  /** Identifiers are never reused. */
  method FreshId(taken: set<Id>) returns (id: Id)
    ensures id !in taken
  {
    id := 0;
    var rest := taken;
    while rest != {}
      invariant forall x | x in taken && x !in rest :: x < id
      decreases |rest|
    {
      var x :| x in rest;
      rest := rest - {x};
      if x >= id { id := x + 1; }
    }
  }

  // ---- what every upsert keeps ----

  ghost predicate SlugsUnique(restaurants: map<Id, Restaurant>) {
    forall r, s | r in restaurants && s in restaurants && r != s && restaurants[r].city == restaurants[s].city ::
      restaurants[r].slug != restaurants[s].slug
  }

  lemma SameSlugs(before: map<Id, Restaurant>, id: Id, r: Restaurant)
    requires SlugsUnique(before) && id in before && r.city == before[id].city && r.slug == before[id].slug
    ensures SlugsUnique(before[id := r])
  {
  }

  lemma NewSlug(before: map<Id, Restaurant>, id: Id, r: Restaurant)
    requires SlugsUnique(before) && id !in before && r.slug !in SlugsOf(before, r.city)
    ensures SlugsUnique(before[id := r])
  {
    forall s | s in before && before[s].city == r.city ensures before[s].slug != r.slug {
      assert before[s].slug in SlugsOf(before, r.city);
    }
  }

  lemma KnownKeeps(t: Text, db: Tables, place: Place, i: nat)
    requires Valid(db) && i < |db.sources|
    ensures Valid(UpsertKnown(t, db, place, i).db)
  {
    var id := db.sources[i].restaurant;
    SameSlugs(db.restaurants, id, Refreshed(t, db.restaurants[id], place));
  }

  lemma UnknownKeeps(t: Text, db: Tables, city: CityId, place: Place, r: Resolution, newId: Id)
    requires Valid(db) && newId !in db.restaurants && FindSource(db.sources, place.key).None?
    ensures Valid(UpsertUnknown(t, db, city, place, r, newId).db)
  {
    if r.matched.Some? && r.matched.value in db.restaurants {
      var id := r.matched.value;
      SameSlugs(db.restaurants, id, Enriched(db.restaurants[id], place, r.confidence));
    } else {
      NewSlug(db.restaurants, newId, NewRestaurant(t, db, city, place, r.confidence));
    }
    KeyAdded(db.sources, place.key);
  }

  lemma KeyAdded(rows: seq<SourceRow>, key: SourceKey)
    requires FindSource(rows, key).None?
    ensures forall i | 0 <= i < |rows| :: rows[i].key != key
  {
  }

  /** Uniqueness of source keys and of slugs survives every upsert. */
  lemma UpsertKeeps(t: Text, db: Tables, city: CityId, place: Place, candidates: seq<Candidate>, newId: Id)
    requires Valid(db) && newId !in db.restaurants
    ensures Valid(Upsert(t, db, city, place, candidates, newId).db)
  {
    match FindSource(db.sources, place.key)
    case Some(i) => KnownKeeps(t, db, place, i);
    case None => UnknownKeeps(t, db, city, place, Resolve(t.env, Incomer(place), candidates), newId);
  }

  /**
   * An upsert touches one restaurant at most. It never renames a slug or moves a restaurant to another
   * city, and it never lowers confidence; a restaurant appears exactly when the action says so.
   */
  lemma UpsertTouchesOne(t: Text, db: Tables, city: CityId, place: Place, candidates: seq<Candidate>, newId: Id, r: Id)
    requires Valid(db) && newId !in db.restaurants
    ensures var o := Upsert(t, db, city, place, candidates, newId);
            && (o.action.Created? <==> o.db.restaurants.Keys != db.restaurants.Keys)
            && (o.action.Created? ==> o.db.restaurants.Keys == db.restaurants.Keys + {newId} && o.restaurant == Some(newId))
            && (r in db.restaurants ==> r in o.db.restaurants)
            && (r in db.restaurants ==> KeepsIdentity(db.restaurants[r], o.db.restaurants[r]))
            && (r in db.restaurants && o.restaurant != Some(r) ==> o.db.restaurants[r] == db.restaurants[r])
  {
    match FindSource(db.sources, place.key)
    case Some(i) =>
      assert (db.restaurants[db.sources[i].restaurant := Refreshed(t, db.restaurants[db.sources[i].restaurant], place)]).Keys
             == db.restaurants.Keys;
    case None => UnknownTouchesOne(t, db, city, place, Resolve(t.env, Incomer(place), candidates), newId, r);
  }

  /** Slug and city stay, and confidence does not fall. */
  predicate KeepsIdentity(before: Restaurant, after: Restaurant) {
    after.slug == before.slug && after.city == before.city && after.confidence >= before.confidence
  }

  lemma UnknownTouchesOne(t: Text, db: Tables, city: CityId, place: Place, m: Resolution, newId: Id, r: Id)
    requires newId !in db.restaurants
    ensures var o := UpsertUnknown(t, db, city, place, m, newId);
            && (o.action.Created? <==> o.db.restaurants.Keys != db.restaurants.Keys)
            && (o.action.Created? ==> o.db.restaurants.Keys == db.restaurants.Keys + {newId} && o.restaurant == Some(newId))
            && (r in db.restaurants ==> r in o.db.restaurants)
            && (r in db.restaurants ==> KeepsIdentity(db.restaurants[r], o.db.restaurants[r]))
            && (r in db.restaurants && o.restaurant != Some(r) ==> o.db.restaurants[r] == db.restaurants[r])
  {
    var o := UpsertUnknown(t, db, city, place, m, newId);
    if o.action.Created? {
      assert newId in o.db.restaurants.Keys;
    } else {
      assert o.db.restaurants.Keys == db.restaurants.Keys;
    }
  }

  // ---- replaying a batch ----

  /** One place of a batch, with the candidate list the sweep had at that point. */
  datatype Item = Item(place: Place, candidates: seq<Candidate>, newId: Id)

  /** Candidates are rows of the table, and a new identifier is new. */
  ghost predicate Enabled(db: Tables, item: Item) {
    (forall c | c in item.candidates :: c.id in db.restaurants) && item.newId !in db.restaurants
  }

  ghost function StepOf(t: Text, db: Tables, city: CityId, item: Item): Outcome
    requires Linked(db)
  {
    Upsert(t, db, city, item.place, item.candidates, item.newId)
  }

  ghost predicate IsBatch(t: Text, db: Tables, city: CityId, items: seq<Item>)
    requires Valid(db)
    decreases |items|
  {
    items == [] ||
    (Enabled(db, items[0]) &&
     (UpsertKeeps(t, db, city, items[0].place, items[0].candidates, items[0].newId);
      IsBatch(t, StepOf(t, db, city, items[0]).db, city, items[1..])))
  }

  /** The tables after the batch and the action taken for each place. */
  ghost function After(t: Text, db: Tables, city: CityId, items: seq<Item>): (r: (Tables, seq<Action>))
    requires Valid(db) && IsBatch(t, db, city, items)
    ensures Valid(r.0) && |r.1| == |items|
    decreases |items|
  {
    if items == [] then (db, []) else
      UpsertKeeps(t, db, city, items[0].place, items[0].candidates, items[0].newId);
      var step := StepOf(t, db, city, items[0]);
      var (end, actions) := After(t, step.db, city, items[1..]);
      (end, [step.action] + actions)
  }

  /** The place's source row stores this payload. */
  ghost predicate Stored(t: Text, db: Tables, place: Place) {
    exists row :: row in db.sources && row.key == place.key && row.hash == t.hash(place)
  }

  ghost predicate HasKey(db: Tables, key: SourceKey) {
    exists i :: 0 <= i < |db.sources| && db.sources[i].key == key
  }

  ghost predicate DistinctKeys(items: seq<Item>) {
    forall i, j | 0 <= i < j < |items| :: items[i].place.key != items[j].place.key
  }

  lemma HeadOfSort(rows: seq<Row>)
    ensures Sort(ByRank(), rows) != [] ==> Sort(ByRank(), rows)[0] in rows
  {
    SameElements(rows, Sort(ByRank(), rows));
    if Sort(ByRank(), rows) != [] { assert Sort(ByRank(), rows)[0] in Sort(ByRank(), rows); }
  }

  predicate Listed(candidates: seq<Candidate>, id: Id) {
    exists c | c in candidates :: c.id == id
  }

  lemma DecidedIsListed(env: Env, incoming: Incoming, norm: string, candidates: seq<Candidate>)
    ensures var r := Decide(Sort(ByRank(), Rows(env, incoming, norm, candidates)));
            r.matched.Some? ==> Listed(candidates, r.matched.value)
  {
    var rows := Rows(env, incoming, norm, candidates);
    HeadOfSort(rows);
    if Sort(ByRank(), rows) != [] { RowIs(env, incoming, norm, candidates, Sort(ByRank(), rows)[0]); }
  }

  lemma OwnerIsListed(incoming: Incoming, candidates: seq<Candidate>)
    ensures OwnerOf(incoming, candidates).Some? ==> Listed(candidates, OwnerOf(incoming, candidates).value.id)
  {
    KeyOwnerIs(candidates, (incoming.source, incoming.externalId));
  }

  lemma {:induction false} MatchIsListed(env: Env, incoming: Incoming, candidates: seq<Candidate>)
    ensures var r := Resolve(env, incoming, candidates); r.matched.Some? ==> Listed(candidates, r.matched.value)
  {
    if OwnerOf(incoming, candidates).Some? {
      OwnerIsListed(incoming, candidates);
    } else {
      DecidedIsListed(env, incoming, env.normalize(incoming.name), candidates);
    }
  }

  /** Unless it is refused, an upsert leaves the payload stored. */
  lemma StepStores(t: Text, db: Tables, city: CityId, item: Item)
    requires Valid(db) && Enabled(db, item)
    ensures var r := StepOf(t, db, city, item);
            if r.action.Conflicted? then !HasKey(r.db, item.place.key) && |r.db.conflicts| > |db.conflicts|
            else Stored(t, r.db, item.place)
  {
    MatchIsListed(t.env, Incomer(item.place), item.candidates);
    var after := StepOf(t, db, city, item).db;
    match FindSource(db.sources, item.place.key)
    case Some(i) =>
      assert after.sources[i] in after.sources && after.sources[i].hash == t.hash(item.place);
    case None =>
      if |after.sources| > |db.sources| {
        assert after.sources[|db.sources|] in after.sources && after.sources[|db.sources|].hash == t.hash(item.place);
      }
  }

  lemma OtherKeyKept(t: Text, db: Tables, city: CityId, item: Item, place: Place)
    requires Valid(db) && Enabled(db, item) && place.key != item.place.key
    ensures Stored(t, db, place) <==> Stored(t, StepOf(t, db, city, item).db, place)
    ensures HasKey(db, place.key) <==> HasKey(StepOf(t, db, city, item).db, place.key)
  {
    StepSources(t, db, city, item);
    RowsKept(db.sources, StepOf(t, db, city, item).db.sources, item.place.key, place.key);
  }

  /** Only rows with this key differ. */
  ghost predicate SameBut(before: seq<SourceRow>, after: seq<SourceRow>, key: SourceKey) {
    && |before| <= |after|
    && (forall i | 0 <= i < |before| :: if before[i].key == key then after[i].key == key else after[i] == before[i])
    && (forall i | |before| <= i < |after| :: after[i].key == key)
  }

  lemma StepSources(t: Text, db: Tables, city: CityId, item: Item)
    requires Valid(db) && Enabled(db, item)
    ensures SameBut(db.sources, StepOf(t, db, city, item).db.sources, item.place.key)
  {
    match FindSource(db.sources, item.place.key)
    case Some(i) => KnownSources(t, db, item.place, i);
    case None => UnknownSources(t, db, city, item.place, Resolve(t.env, Incomer(item.place), item.candidates), item.newId);
  }

  lemma KnownSources(t: Text, db: Tables, place: Place, i: nat)
    requires Valid(db) && i < |db.sources| && db.sources[i].key == place.key
    ensures SameBut(db.sources, UpsertKnown(t, db, place, i).db.sources, place.key)
  {
  }

  lemma UnknownSources(t: Text, db: Tables, city: CityId, place: Place, r: Resolution, newId: Id)
    requires FindSource(db.sources, place.key).None?
    ensures SameBut(db.sources, UpsertUnknown(t, db, city, place, r, newId).db.sources, place.key)
  {
  }

  lemma RowsKept(before: seq<SourceRow>, after: seq<SourceRow>, changed: SourceKey, key: SourceKey)
    requires SameBut(before, after, changed) && key != changed
    ensures forall row: SourceRow | row.key == key :: row in before <==> row in after
    ensures (exists i :: 0 <= i < |before| && before[i].key == key) <==> (exists i :: 0 <= i < |after| && after[i].key == key)
  {
    if i :| 0 <= i < |after| && after[i].key == key { assert before[i] == after[i]; }
    forall row: SourceRow | row.key == key ensures row in before <==> row in after {
      if row in after { var i :| 0 <= i < |after| && after[i] == row; assert before[i] == row; }
      if row in before { var i :| 0 <= i < |before| && before[i] == row; assert after[i] == row; }
    }
  }

  lemma {:induction false} BatchKeepsOthers(t: Text, db: Tables, city: CityId, items: seq<Item>, place: Place)
    requires Valid(db) && IsBatch(t, db, city, items) && forall i | 0 <= i < |items| :: items[i].place.key != place.key
    ensures Stored(t, db, place) <==> Stored(t, After(t, db, city, items).0, place)
    ensures HasKey(db, place.key) <==> HasKey(After(t, db, city, items).0, place.key)
    decreases |items|
  {
    if items != [] {
      OtherKeyKept(t, db, city, items[0], place);
      UpsertKeeps(t, db, city, items[0].place, items[0].candidates, items[0].newId);
      BatchKeepsOthers(t, StepOf(t, db, city, items[0]).db, city, items[1..], place);
    }
  }

  /** A refused place has no source row; any other has its payload stored. */
  ghost predicate Settled(t: Text, db: Tables, place: Place, action: Action) {
    if action.Conflicted? then !HasKey(db, place.key) else Stored(t, db, place)
  }

  lemma FirstSettles(t: Text, db: Tables, city: CityId, items: seq<Item>)
    requires Valid(db) && IsBatch(t, db, city, items) && DistinctKeys(items) && items != []
    ensures Settled(t, After(t, db, city, items).0, items[0].place, After(t, db, city, items).1[0])
  {
    UpsertKeeps(t, db, city, items[0].place, items[0].candidates, items[0].newId);
    StepStores(t, db, city, items[0]);
    forall j | 0 <= j < |items[1..]| ensures items[1..][j].place.key != items[0].place.key { assert items[1..][j] == items[j + 1]; }
    BatchKeepsOthers(t, StepOf(t, db, city, items[0]).db, city, items[1..], items[0].place);
  }

  /** After a batch of distinct keys every place is settled. */
  lemma {:induction false} BatchStores(t: Text, db: Tables, city: CityId, items: seq<Item>, i: nat)
    requires Valid(db) && IsBatch(t, db, city, items) && DistinctKeys(items) && i < |items|
    ensures Settled(t, After(t, db, city, items).0, items[i].place, After(t, db, city, items).1[i])
    decreases |items|
  {
    if i == 0 {
      FirstSettles(t, db, city, items);
    } else {
      UpsertKeeps(t, db, city, items[0].place, items[0].candidates, items[0].newId);
      BatchStores(t, StepOf(t, db, city, items[0]).db, city, items[1..], i - 1);
    }
  }

  /** A place whose payload is stored is skipped, and nothing changes. */
  lemma StoredIsSkipped(t: Text, db: Tables, city: CityId, item: Item)
    requires Valid(db) && Stored(t, db, item.place)
    ensures StepOf(t, db, city, item).action == Skipped && StepOf(t, db, city, item).db == db
  {
  }

  /**
   * Upserting one place twice: unless the first time was refused, the second changes nothing, and the
   * place is skipped as the restaurant it was stored for; after a refusal it never is.
   */
  lemma RepeatIsNoOpIff(t: Text, db: Tables, city: CityId, item: Item, again: Item)
    requires Valid(db) && Enabled(db, item) && again.place == item.place
    requires Valid(StepOf(t, db, city, item).db) && Enabled(StepOf(t, db, city, item).db, again)
    ensures var once := StepOf(t, db, city, item);
            var twice := StepOf(t, once.db, city, again);
            && (twice.db == once.db <==> !once.action.Conflicted?)
            && (twice.action.Skipped? <==> !once.action.Conflicted?)
            && (!once.action.Conflicted? ==> twice.restaurant == once.restaurant)
  {
    var once := StepOf(t, db, city, item);
    StepStores(t, db, city, item);
    if once.action.Conflicted? {
      StepGrows(t, once.db, city, again);
      StepStores(t, once.db, city, again);
      UnstoredIsNotSkipped(t, once.db, city, again);
    } else {
      StoredIsSkipped(t, once.db, city, again);
      SkippedAsStored(t, db, city, item, again);
    }
  }

  lemma UnstoredIsNotSkipped(t: Text, db: Tables, city: CityId, item: Item)
    requires Valid(db) && Enabled(db, item) && !HasKey(db, item.place.key)
    ensures !StepOf(t, db, city, item).action.Skipped?
  {
    MatchIsListed(t.env, Incomer(item.place), item.candidates);
  }

  /** The source row of a key names the restaurant the upsert reported. */
  lemma SkippedAsStored(t: Text, db: Tables, city: CityId, item: Item, again: Item)
    requires Valid(db) && Enabled(db, item) && again.place == item.place
    requires Valid(StepOf(t, db, city, item).db) && !StepOf(t, db, city, item).action.Conflicted?
    requires StepOf(t, StepOf(t, db, city, item).db, city, again).action.Skipped?
    ensures StepOf(t, StepOf(t, db, city, item).db, city, again).restaurant == StepOf(t, db, city, item).restaurant
  {
    MatchIsListed(t.env, Incomer(item.place), item.candidates);
    var once := StepOf(t, db, city, item);
    var key := item.place.key;
    if FindSource(db.sources, key).None? {
      assert once.db.sources[|db.sources|].key == key && Some(once.db.sources[|db.sources|].restaurant) == once.restaurant;
    } else {
      var i := FindSource(db.sources, key).value;
      assert once.db.sources[i].key == key && Some(once.db.sources[i].restaurant) == once.restaurant;
    }
  }

  function Skips(n: nat): (r: seq<Action>)
    ensures |r| == n && forall i | 0 <= i < n :: r[i] == Skipped
  {
    seq(n, i => Skipped)
  }

  ghost predicate AllStored(t: Text, db: Tables, items: seq<Item>) {
    forall i | 0 <= i < |items| :: Stored(t, db, items[i].place)
  }

  lemma StoredTail(t: Text, db: Tables, items: seq<Item>)
    requires items != [] && AllStored(t, db, items)
    ensures Stored(t, db, items[0].place) && AllStored(t, db, items[1..])
  {
  }

  lemma {:induction false} AllStoredSkips(t: Text, db: Tables, city: CityId, items: seq<Item>)
    requires Valid(db) && IsBatch(t, db, city, items) && AllStored(t, db, items)
    ensures After(t, db, city, items) == (db, Skips(|items|))
    decreases |items|
  {
    if items == [] {
      assert Skips(0) == [];
    } else {
      StoredTail(t, db, items);
      FirstIsSkipped(t, db, city, items);
      AllStoredSkips(t, db, city, items[1..]);
      OneMoreSkip(|items| - 1);
    }
  }

  lemma FirstIsSkipped(t: Text, db: Tables, city: CityId, items: seq<Item>)
    requires Valid(db) && IsBatch(t, db, city, items) && items != [] && Stored(t, db, items[0].place)
    ensures IsBatch(t, db, city, items[1..])
    ensures var rest := After(t, db, city, items[1..]);
            After(t, db, city, items) == (rest.0, [Skipped] + rest.1)
  {
    StoredIsSkipped(t, db, city, items[0]);
  }

  lemma OneMoreSkip(n: nat)
    ensures [Skipped] + Skips(n) == Skips(n + 1)
  {
  }

  function Rowcount(db: Tables): nat { |db.sources| + |db.conflicts| }

  lemma StepGrows(t: Text, db: Tables, city: CityId, item: Item)
    requires Valid(db) && Enabled(db, item)
    ensures Rowcount(StepOf(t, db, city, item).db) >= Rowcount(db)
    ensures !HasKey(db, item.place.key) ==> Rowcount(StepOf(t, db, city, item).db) > Rowcount(db)
  {
    MatchIsListed(t.env, Incomer(item.place), item.candidates);
  }

  lemma {:induction false} BatchGrows(t: Text, db: Tables, city: CityId, items: seq<Item>)
    requires Valid(db) && IsBatch(t, db, city, items)
    ensures Rowcount(After(t, db, city, items).0) >= Rowcount(db)
    decreases |items|
  {
    if items != [] {
      UpsertKeeps(t, db, city, items[0].place, items[0].candidates, items[0].newId);
      StepGrows(t, db, city, items[0]);
      BatchGrows(t, StepOf(t, db, city, items[0]).db, city, items[1..]);
    }
  }

  lemma {:induction false} UnknownKeyGrows(t: Text, db: Tables, city: CityId, items: seq<Item>, i: nat)
    requires Valid(db) && IsBatch(t, db, city, items) && DistinctKeys(items) && i < |items| && !HasKey(db, items[i].place.key)
    ensures Rowcount(After(t, db, city, items).0) > Rowcount(db)
    decreases |items|
  {
    UpsertKeeps(t, db, city, items[0].place, items[0].candidates, items[0].newId);
    var next := StepOf(t, db, city, items[0]).db;
    StepGrows(t, db, city, items[0]);
    if i == 0 {
      BatchGrows(t, next, city, items[1..]);
    } else {
      OtherKeyKept(t, db, city, items[0], items[i].place);
      UnknownKeyGrows(t, next, city, items[1..], i - 1);
    }
  }

  /** A second run over the same places, whatever candidate lists it reads. */
  ghost predicate Replays(again: seq<Item>, items: seq<Item>) {
    |again| == |items| && forall i | 0 <= i < |items| :: again[i].place == items[i].place
  }

  /** Replaying a batch of distinct keys is a no-op exactly when the batch met no conflict; then every place is skipped. */
  lemma {:induction false} ReplayIsNoOpIff(t: Text, db: Tables, city: CityId, items: seq<Item>, again: seq<Item>)
    requires Valid(db) && IsBatch(t, db, city, items) && DistinctKeys(items) && Replays(again, items)
    requires IsBatch(t, After(t, db, city, items).0, city, again)
    ensures var (end, actions) := After(t, db, city, items);
            var (end', actions') := After(t, end, city, again);
            && (end' == end <==> forall i | 0 <= i < |items| :: !actions[i].Conflicted?)
            && (end' == end ==> actions' == Skips(|items|))
  {
    var (end, actions) := After(t, db, city, items);
    forall i | 0 <= i < |items|
      ensures Settled(t, end, again[i].place, actions[i])
    {
      BatchStores(t, db, city, items, i);
    }
    if i :| 0 <= i < |items| && actions[i].Conflicted? {
      UnknownKeyGrows(t, end, city, again, i);
    } else {
      AllStoredSkips(t, end, city, again);
    }
  }

  /** A refusal is recorded without the candidate it refused: the first column is always empty. */
  lemma ConflictForgetsBest(t: Text, db: Tables, city: CityId, item: Item)
    requires Valid(db) && DistinctIds(item.candidates) && StepOf(t, db, city, item).action.Conflicted?
    ensures var rows := StepOf(t, db, city, item).db.conflicts;
            |rows| == |db.conflicts| + 1 && rows[|rows| - 1].candidateA.None? && rows[|rows| - 1].candidateB.Some?
  {
    RefusesIff(t.env, Incomer(item.place), item.candidates);
  }
}
