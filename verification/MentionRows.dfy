/**
 * Persisting an analysis: mentions are resolved to dishes and inserted under UNIQUE(review, dish).
 * A dish is named by its slug, which is unique in its table.
 */
module MentionRows {
  import opened Wrappers
  import opened Extraction
  import opened Grounding

  // ---- resolving a name to a dish ----

  function LookupSlug(lang: Lang, slugs: set<string>, index: Index, candidate: string): Option<string> {
    var n := lang.normalize(candidate);
    if candidate != "" && n in index && index[n] != "" && index[n] in slugs then Some(index[n]) else None
  }

  /** The dish, and the dish table afterwards. */
  function Resolve(lang: Lang, slugs: set<string>, index: Index, allowCreation: bool, m: Out): (Option<string>, set<string>) {
    var byAlias, byName := LookupSlug(lang, slugs, index, m.AliasText()), LookupSlug(lang, slugs, index, m.name);
    if byAlias.Some? then (byAlias, slugs)
    else if byName.Some? then (byName, slugs)
    else if !allowCreation || |lang.strip(m.name)| < 3 then (None, slugs)
    else var slug := lang.slugify(lang.strip(m.name)); (Some(slug), slugs + {slug})
  }

  datatype Resolved = Resolved(dish: string, mention: Out)

  /** Resolve the mentions in order; those without a dish are skipped. */
  function ResolveAll(lang: Lang, slugs: set<string>, index: Index, allowCreation: bool, ms: seq<Out>): (seq<Resolved>, set<string>) {
    if ms == [] then ([], slugs) else
      var (before, slugs') := ResolveAll(lang, slugs, index, allowCreation, ms[..|ms| - 1]);
      var m := ms[|ms| - 1];
      match Resolve(lang, slugs', index, allowCreation, m)
      case (Some(dish), slugs'') => (before + [Resolved(dish, m)], slugs'')
      case (None, slugs'') => (before, slugs'')
  }

  predicate DistinctDishes(rows: seq<Resolved>) {
    forall i, j | 0 <= i < j < |rows| :: rows[i].dish != rows[j].dish
  }

  // ---- rows ----

  type ReviewId = nat

  datatype MentionRow = MentionRow(
    dish: string, snippet: Option<string>, sentiment: real, confidence: real, attributes: seq<string>,
    price: Option<real>, recommended: Option<bool>, byModel: bool)

  /** `dish` is the mention an aspect belongs to; review-level aspects have none. */
  datatype AspectRow = AspectRow(dish: Option<string>, aspect: string, sentiment: real, confidence: real)

  datatype Aspect = Aspect(aspect: string, sentiment: real, confidence: real)

  datatype Answer = Answer(mentions: seq<Out>, aspects: seq<Aspect>, byModel: bool)

  function MentionRowOf(r: Resolved, byModel: bool): MentionRow {
    MentionRow(r.dish, r.mention.snippet, r.mention.sentiment, r.mention.confidence, r.mention.attributes,
               r.mention.price, r.mention.recommended, byModel)
  }

  function MentionRowsOf(rows: seq<Resolved>, byModel: bool): (r: seq<MentionRow>)
    ensures |r| == |rows| && forall i | 0 <= i < |r| :: r[i] == MentionRowOf(rows[i], byModel)
  {
    seq(|rows|, i requires 0 <= i < |rows| => MentionRowOf(rows[i], byModel))
  }

  function AspectsOfMention(r: Resolved): (s: seq<AspectRow>)
    ensures |s| == |r.mention.aspects|
  {
    seq(|r.mention.aspects|, i requires 0 <= i < |r.mention.aspects| =>
      AspectRow(Some(r.dish), r.mention.aspects[i], r.mention.sentiment, r.mention.confidence))
  }

  function AspectRowsOf(rows: seq<Resolved>): seq<AspectRow> {
    if rows == [] then [] else AspectRowsOf(rows[..|rows| - 1]) + AspectsOfMention(rows[|rows| - 1])
  }

  function ReviewAspects(aspects: seq<Aspect>): seq<AspectRow> {
    seq(|aspects|, i requires 0 <= i < |aspects| => AspectRow(None, aspects[i].aspect, aspects[i].sentiment, aspects[i].confidence))
  }

  /** The dish table and the two tables of rows derived from reviews. */
  datatype Tables = Tables(slugs: set<string>, mentions: map<ReviewId, seq<MentionRow>>, aspects: map<ReviewId, seq<AspectRow>>)

  /** The tables after an analysis went in without breaking UNIQUE(review, dish). */
  function Persisted(lang: Lang, t: Tables, index: Index, allowCreation: bool, id: ReviewId, a: Answer): Tables {
    var (rows, slugs) := ResolveAll(lang, t.slugs, index, allowCreation, a.mentions);
    Tables(slugs, t.mentions[id := MentionRowsOf(rows, a.byModel)], t.aspects[id := AspectRowsOf(rows) + ReviewAspects(a.aspects)])
  }

  /** The first `i` mentions are resolved and inserted, no two for one dish. */
  ghost predicate Upto(lang: Lang, slugs: set<string>, index: Index, allowCreation: bool, a: Answer, i: nat,
                       known: set<string>, resolved: seq<Resolved>, rows: seq<MentionRow>, aspectRows: seq<AspectRow>)
    requires i <= |a.mentions|
  {
    && (resolved, known) == ResolveAll(lang, slugs, index, allowCreation, a.mentions[..i])
    && rows == MentionRowsOf(resolved, a.byModel)
    && aspectRows == AspectRowsOf(resolved)
    && DistinctDishes(resolved)
  }

  lemma ResolveNext(lang: Lang, slugs: set<string>, index: Index, allowCreation: bool, ms: seq<Out>, i: nat)
    requires i < |ms|
    ensures var (before, known) := ResolveAll(lang, slugs, index, allowCreation, ms[..i]);
            var (dish, known') := Resolve(lang, known, index, allowCreation, ms[i]);
            ResolveAll(lang, slugs, index, allowCreation, ms[..i + 1])
            == (if dish.Some? then before + [Resolved(dish.value, ms[i])] else before, known')
  {
    assert ms[..i + 1][..i] == ms[..i];
  }

  lemma InsertNext(lang: Lang, slugs: set<string>, index: Index, allowCreation: bool, a: Answer, i: nat, dish: string,
                   known: set<string>, resolved: seq<Resolved>, rows: seq<MentionRow>, aspectRows: seq<AspectRow>)
    requires i < |a.mentions| && Upto(lang, slugs, index, allowCreation, a, i, known, resolved, rows, aspectRows)
    requires Resolve(lang, known, index, allowCreation, a.mentions[i]).0 == Some(dish)
    requires forall j | 0 <= j < |rows| :: rows[j].dish != dish
    ensures var r := Resolved(dish, a.mentions[i]);
            Upto(lang, slugs, index, allowCreation, a, i + 1, Resolve(lang, known, index, allowCreation, a.mentions[i]).1,
                 resolved + [r], rows + [MentionRowOf(r, a.byModel)], aspectRows + AspectsOfMention(r))
  {
    ResolveNext(lang, slugs, index, allowCreation, a.mentions, i);
    InsertOne(resolved, Resolved(dish, a.mentions[i]), a.byModel);
    DistinctNext(resolved, Resolved(dish, a.mentions[i]), a.byModel);
  }

  lemma RepeatedDish(lang: Lang, slugs: set<string>, index: Index, allowCreation: bool, a: Answer, i: nat, dish: string,
                     known: set<string>, resolved: seq<Resolved>, rows: seq<MentionRow>, aspectRows: seq<AspectRow>, j: nat)
    requires i < |a.mentions| && Upto(lang, slugs, index, allowCreation, a, i, known, resolved, rows, aspectRows)
    requires Resolve(lang, known, index, allowCreation, a.mentions[i]).0 == Some(dish)
    requires j < |rows| && rows[j].dish == dish
    ensures !DistinctDishes(ResolveAll(lang, slugs, index, allowCreation, a.mentions).0)
  {
    ResolveNext(lang, slugs, index, allowCreation, a.mentions, i);
    ResolveAllPrefix(lang, slugs, index, allowCreation, a.mentions, i + 1);
    DuplicateStays(resolved + [Resolved(dish, a.mentions[i])], ResolveAll(lang, slugs, index, allowCreation, a.mentions).0, j);
  }

  lemma DistinctNext(resolved: seq<Resolved>, r: Resolved, byModel: bool)
    requires DistinctDishes(resolved) && forall j | 0 <= j < |resolved| :: MentionRowsOf(resolved, byModel)[j].dish != r.dish
    ensures DistinctDishes(resolved + [r])
  {
    forall j | 0 <= j < |resolved| ensures resolved[j].dish != r.dish {
      assert MentionRowsOf(resolved, byModel)[j].dish == resolved[j].dish;
    }
  }

  lemma InsertOne(resolved: seq<Resolved>, r: Resolved, byModel: bool)
    ensures MentionRowsOf(resolved + [r], byModel) == MentionRowsOf(resolved, byModel) + [MentionRowOf(r, byModel)]
    ensures AspectRowsOf(resolved + [r]) == AspectRowsOf(resolved) + AspectsOfMention(r)
  {
    assert (resolved + [r])[..|resolved|] == resolved;
  }

  lemma DuplicateStays(part: seq<Resolved>, whole: seq<Resolved>, j: nat)
    requires Begins(part, whole)
    requires j < |part| - 1 && part[j].dish == part[|part| - 1].dish
    ensures !DistinctDishes(whole)
  {
    assert whole[j] == part[j] && whole[|part| - 1] == part[|part| - 1];
  }

  /** Try the matched alias, then the name; then create a dish, if that is allowed. */
  method ResolveDish(lang: Lang, slugs: set<string>, index: Index, allowCreation: bool, m: Out)
    returns (dish: Option<string>, slugs': set<string>)
    ensures (dish, slugs') == Resolve(lang, slugs, index, allowCreation, m)
  {
    var candidates := [m.AliasText(), m.name];
    for i := 0 to |candidates|
      invariant forall j | 0 <= j < i :: LookupSlug(lang, slugs, index, candidates[j]).None?
    {
      var candidate := candidates[i];
      if candidate != "" {
        var norm := lang.normalize(candidate);
        if norm in index && index[norm] != "" && index[norm] in slugs {
          assert LookupSlug(lang, slugs, index, candidate) == Some(index[norm]);
          assert i == 1 ==> LookupSlug(lang, slugs, index, candidates[0]).None?;
          return Some(index[norm]), slugs;
        }
      }
    }
    assert LookupSlug(lang, slugs, index, candidates[0]).None? && LookupSlug(lang, slugs, index, candidates[1]).None?;
    var name := lang.strip(m.name);
    if !allowCreation || |name| < 3 {
      return None, slugs;
    }
    var slug := lang.slugify(name);
    if slug in slugs {
      assert slugs + {slug} == slugs;
      return Some(slug), slugs;
    }
    return Some(slug), slugs + {slug};
  }

  /** Resolve and insert the mentions, up to the first that repeats a dish. */
  method InsertAll(lang: Lang, slugs: set<string>, index: Index, allowCreation: bool, a: Answer)
    returns (ok: bool, known: set<string>, rows: seq<MentionRow>, aspectRows: seq<AspectRow>)
    ensures var (resolved, slugs') := ResolveAll(lang, slugs, index, allowCreation, a.mentions);
            && (ok <==> DistinctDishes(resolved))
            && (ok ==> known == slugs' && rows == MentionRowsOf(resolved, a.byModel) && aspectRows == AspectRowsOf(resolved))
  {
    known, rows, aspectRows := slugs, [], [];
    ghost var resolved: seq<Resolved> := [];
    for i := 0 to |a.mentions|
      invariant Upto(lang, slugs, index, allowCreation, a, i, known, resolved, rows, aspectRows)
    {
      var m := a.mentions[i];
      var dish, known' := ResolveDish(lang, known, index, allowCreation, m);
      ResolveNext(lang, slugs, index, allowCreation, a.mentions, i);
      if dish.Some? {
        if j :| 0 <= j < |rows| && rows[j].dish == dish.value {
          RepeatedDish(lang, slugs, index, allowCreation, a, i, dish.value, known, resolved, rows, aspectRows, j);
          return false, known, rows, aspectRows;
        }
        InsertNext(lang, slugs, index, allowCreation, a, i, dish.value, known, resolved, rows, aspectRows);
        rows := rows + [MentionRowOf(Resolved(dish.value, m), a.byModel)];
        aspectRows := aspectRows + AspectsOfMention(Resolved(dish.value, m));
        resolved := resolved + [Resolved(dish.value, m)];
      }
      known := known';
    }
    assert a.mentions[..|a.mentions|] == a.mentions;
    return true, known, rows, aspectRows;
  }

  class Database {
    var slugs: set<string>
    var mentions: map<ReviewId, seq<MentionRow>>
    var aspects: map<ReviewId, seq<AspectRow>>

    function View(): Tables
      reads this
    {
      Tables(slugs, mentions, aspects)
    }

    /** Delete what was derived from the review before, then insert; a repeated dish rolls everything back. */
    method PersistAnalysis(lang: Lang, index: Index, allowCreation: bool, id: ReviewId, a: Answer) returns (ok: bool)
      modifies this
      ensures ok <==> DistinctDishes(ResolveAll(lang, old(slugs), index, allowCreation, a.mentions).0)
      ensures View() == if ok then Persisted(lang, old(View()), index, allowCreation, id, a) else old(View())
    {
      var known, rows, aspectRows;
      ok, known, rows, aspectRows := InsertAll(lang, slugs, index, allowCreation, a);
      if ok {
        slugs := known;
        mentions := mentions[id := rows];
        aspects := aspects[id := aspectRows + ReviewAspects(a.aspects)];
      }
    }
  }

  ghost predicate Begins(part: seq<Resolved>, whole: seq<Resolved>) {
    |part| <= |whole| && part == whole[..|part|]
  }

  lemma BeginsTransitive(a: seq<Resolved>, b: seq<Resolved>, c: seq<Resolved>)
    requires Begins(a, b) && Begins(b, c)
    ensures Begins(a, c)
  {
    assert b[..|a|] == c[..|a|];
  }

  lemma NextBegins(lang: Lang, slugs: set<string>, index: Index, allowCreation: bool, ms: seq<Out>, n: nat)
    requires n < |ms|
    ensures Begins(ResolveAll(lang, slugs, index, allowCreation, ms[..n]).0, ResolveAll(lang, slugs, index, allowCreation, ms[..n + 1]).0)
  {
    ResolveNext(lang, slugs, index, allowCreation, ms, n);
  }

  lemma {:induction false} ResolveAllPrefix(lang: Lang, slugs: set<string>, index: Index, allowCreation: bool, ms: seq<Out>, n: nat)
    requires n <= |ms|
    ensures Begins(ResolveAll(lang, slugs, index, allowCreation, ms[..n]).0, ResolveAll(lang, slugs, index, allowCreation, ms).0)
    decreases |ms| - n
  {
    if n == |ms| {
      assert ms[..n] == ms;
    } else {
      ResolveAllPrefix(lang, slugs, index, allowCreation, ms, n + 1);
      NextBegins(lang, slugs, index, allowCreation, ms, n);
      BeginsTransitive(ResolveAll(lang, slugs, index, allowCreation, ms[..n]).0, ResolveAll(lang, slugs, index, allowCreation, ms[..n + 1]).0,
                       ResolveAll(lang, slugs, index, allowCreation, ms).0);
    }
  }

  // ---- UNIQUE(review, dish) ----

  /** What `load_alias_index` guarantees: aliases are non-empty and name existing dishes. */
  ghost predicate Sound(index: Index, slugs: set<string>) {
    forall a | a in index :: a != "" && index[a] != "" && index[a] in slugs
  }

  ghost predicate FixedPoints(lang: Lang, index: Index) {
    forall a | a in index :: lang.normalize(a) == a
  }

  /**
   * Two aliases of different dishes that are looked up as the same dish. Only the first alias of a
   * normal form is ever credited, so both are that, and their normal forms differ.
   */
  ghost predicate Clash(normalize: string -> string, index: Index, a: string, b: string) {
    && Leader(normalize, index, a) && Leader(normalize, index, b) && index[a] != index[b]
    && normalize(a) != normalize(b)
    && normalize(a) in index && normalize(b) in index && index[normalize(a)] == index[normalize(b)]
  }

  ghost predicate KeysSafe(normalize: string -> string, index: Index) {
    forall a, b :: !Clash(normalize, index, a, b)
  }

  lemma FixedPointsAreSafe(lang: Lang, index: Index)
    requires FixedPoints(lang, index)
    ensures KeysSafe(lang.normalize, index)
  {
  }

  lemma OneLeader(normalize: string -> string, index: Index, a: string, b: string)
    requires Leader(normalize, index, a) && Leader(normalize, index, b) && normalize(a) == normalize(b)
    ensures a == b
  {
    LongerFirstAsymmetric(a, b);
  }

  /** Every hit carries the dish its alias stands for, and the alias leads its normal form. */
  ghost predicate FromIndex(normalize: string -> string, index: Index, hits: seq<Hit>) {
    forall i | 0 <= i < |hits| :: Leader(normalize, index, hits[i].alias) && hits[i].dish == index[hits[i].alias]
  }

  lemma {:induction false} BestFromIndex(normalize: string -> string, index: Index, stream: seq<Hit>)
    requires FromIndex(normalize, index, stream)
    ensures FromIndex(normalize, index, Best(stream))
  {
    if stream != [] {
      BestFromIndex(normalize, index, stream[..|stream| - 1]);
      PutFromIndex(normalize, index, Best(stream[..|stream| - 1]), stream[|stream| - 1]);
    }
  }

  lemma {:induction false} PutFromIndex(normalize: string -> string, index: Index, hits: seq<Hit>, h: Hit)
    requires FromIndex(normalize, index, hits) && Leader(normalize, index, h.alias) && h.dish == index[h.alias]
    ensures FromIndex(normalize, index, Put(hits, h))
  {
    if hits != [] && hits[0].dish != h.dish { PutFromIndex(normalize, index, hits[1..], h); }
  }

  lemma ClauseFromIndex(lang: Lang, index: Index, keys: seq<string>, clause: string)
    requires Extraction.Lists(keys, index) && forall a | a in Aliases(keys) :: a in index
    ensures FromIndex(lang.normalize, index, ClauseHits(lang, index, Aliases(keys), clause))
  {
    var norm := lang.normalize(clause);
    var credited := Credited(lang, norm, Aliases(keys), []);
    forall i | 0 <= i < |credited| ensures Leader(lang.normalize, index, credited[i]) {
      CreditedAreLeaders(lang, norm, index, keys, credited[i]);
    }
  }

  lemma {:induction false} StreamFromIndex(lang: Lang, index: Index, keys: seq<string>, clauses: seq<string>)
    requires Extraction.Lists(keys, index) && forall a | a in Aliases(keys) :: a in index
    ensures FromIndex(lang.normalize, index, Stream(lang, index, Aliases(keys), clauses))
  {
    if clauses != [] {
      StreamFromIndex(lang, index, keys, clauses[..|clauses| - 1]);
      ClauseFromIndex(lang, index, keys, clauses[|clauses| - 1]);
    }
  }

  /** A mention of the heuristic names a leading alias of the index, and two mentions name different dishes. */
  ghost predicate Indexed(normalize: string -> string, index: Index, ms: seq<Out>) {
    && (forall i | 0 <= i < |ms| :: ms[i].alias == Some(ms[i].name) && Leader(normalize, index, ms[i].name))
    && (forall i, j | 0 <= i < j < |ms| :: index[ms[i].name] != index[ms[j].name])
  }

  lemma AnalyzeIndexed(lang: Lang, policy: Policy, req: Request, keys: seq<string>)
    requires Extraction.Lists(keys, req.index)
    ensures Indexed(lang.normalize, req.index, Analyze(lang, policy, req, keys))
  {
    var hits := Extract(lang, req.index, keys, req.text);
    Sorting.SameElements(keys, Aliases(keys));
    var stream := Stream(lang, req.index, Aliases(keys), lang.clauses(req.text));
    StreamFromIndex(lang, req.index, keys, lang.clauses(req.text));
    BestFromIndex(lang.normalize, req.index, stream);
    BestOnePerDish(stream);
    var ms := Analyze(lang, policy, req, keys);
    forall i, j | 0 <= i <= j < |ms|
      ensures ms[i].alias == Some(ms[i].name) && Leader(lang.normalize, req.index, ms[i].name)
      ensures i < j ==> ms[j].name in req.index && req.index[ms[i].name] != req.index[ms[j].name]
    {
      var p, q := GroundedOrigin(lang, policy, req, FromHits(hits), i, j);
      assert ms[i].name == hits[p].alias && ms[j].name == hits[q].alias;
    }
  }

  /** No mention of `ms` makes a new dish. */
  ghost predicate NothingNew(lang: Lang, slugs: set<string>, index: Index, allowCreation: bool, ms: seq<Out>) {
    forall i | 0 <= i < |ms| :: Resolve(lang, slugs, index, allowCreation, ms[i]).1 == slugs
  }

  lemma {:induction false} ResolvedOrigin(lang: Lang, slugs: set<string>, index: Index, allowCreation: bool, ms: seq<Out>, i: nat, j: nat)
    returns (p: nat, q: nat)
    requires NothingNew(lang, slugs, index, allowCreation, ms)
    requires i <= j < |ResolveAll(lang, slugs, index, allowCreation, ms).0|
    ensures p <= q < |ms| && (i < j ==> p < q)
    ensures var rows := ResolveAll(lang, slugs, index, allowCreation, ms).0;
            && Resolve(lang, slugs, index, allowCreation, ms[p]).0 == Some(rows[i].dish)
            && Resolve(lang, slugs, index, allowCreation, ms[q]).0 == Some(rows[j].dish)
  {
    var n := |ms| - 1;
    var before := ResolveAll(lang, slugs, index, allowCreation, ms[..n]).0;
    NothingAdded(lang, slugs, index, allowCreation, ms[..n]);
    if j < |before| {
      p, q := ResolvedOrigin(lang, slugs, index, allowCreation, ms[..n], i, j);
    } else if i < j {
      p, q := ResolvedOrigin(lang, slugs, index, allowCreation, ms[..n], i, i);
      q := n;
    } else {
      p, q := n, n;
    }
  }

  lemma {:induction false} NothingAdded(lang: Lang, slugs: set<string>, index: Index, allowCreation: bool, ms: seq<Out>)
    requires NothingNew(lang, slugs, index, allowCreation, ms)
    ensures ResolveAll(lang, slugs, index, allowCreation, ms).1 == slugs
  {
    if ms != [] { NothingAdded(lang, slugs, index, allowCreation, ms[..|ms| - 1]); }
  }

  /** Two mentions never resolve to one dish, unless the index clashes. */
  lemma ApartUnlessClash(lang: Lang, slugs: set<string>, index: Index, allowCreation: bool, m: Out, n: Out)
    requires Sound(index, slugs) && KeysSafe(lang.normalize, index) && (allowCreation ==> FixedPoints(lang, index))
    requires m.alias == Some(m.name) && n.alias == Some(n.name) && index.Keys >= {m.name, n.name} && index[m.name] != index[n.name]
    requires Leader(lang.normalize, index, m.name) && Leader(lang.normalize, index, n.name)
    ensures var x, y := Resolve(lang, slugs, index, allowCreation, m).0, Resolve(lang, slugs, index, allowCreation, n).0;
            x.Some? && y.Some? ==> x != y
  {
    assert !Clash(lang.normalize, index, m.name, n.name);
    if lang.normalize(m.name) == lang.normalize(n.name) { OneLeader(lang.normalize, index, m.name, n.name); }
  }

  /**
   * For every text the heuristic path inserts at most one mention a dish, as long as the index is
   * safe and no dish is created on the way.
   */
  lemma InsertsOncePerDish(lang: Lang, policy: Policy, req: Request, keys: seq<string>, slugs: set<string>)
    requires Extraction.Lists(keys, req.index) && Sound(req.index, slugs)
    requires KeysSafe(lang.normalize, req.index) && (policy.allowCreation ==> FixedPoints(lang, req.index))
    ensures DistinctDishes(ResolveAll(lang, slugs, req.index, policy.allowCreation, Analyze(lang, policy, req, keys)).0)
    ensures ResolveAll(lang, slugs, req.index, policy.allowCreation, Analyze(lang, policy, req, keys)).1 == slugs
  {
    var ms := Analyze(lang, policy, req, keys);
    AnalyzeIndexed(lang, policy, req, keys);
    IndexedMakeNothing(lang, slugs, req.index, policy.allowCreation, ms);
    NothingAdded(lang, slugs, req.index, policy.allowCreation, ms);
    IndexedApart(lang, slugs, req.index, policy.allowCreation, ms);
  }

  lemma IndexedMakeNothing(lang: Lang, slugs: set<string>, index: Index, allowCreation: bool, ms: seq<Out>)
    requires Sound(index, slugs) && (allowCreation ==> FixedPoints(lang, index)) && Indexed(lang.normalize, index, ms)
    ensures NothingNew(lang, slugs, index, allowCreation, ms)
  {
  }

  lemma {:induction false} IndexedApart(lang: Lang, slugs: set<string>, index: Index, allowCreation: bool, ms: seq<Out>)
    requires Sound(index, slugs) && KeysSafe(lang.normalize, index) && (allowCreation ==> FixedPoints(lang, index))
    requires Indexed(lang.normalize, index, ms) && NothingNew(lang, slugs, index, allowCreation, ms)
    ensures DistinctDishes(ResolveAll(lang, slugs, index, allowCreation, ms).0)
  {
    var rows := ResolveAll(lang, slugs, index, allowCreation, ms).0;
    forall i, j | 0 <= i < j < |rows| ensures rows[i].dish != rows[j].dish {
      var p, q := ResolvedOrigin(lang, slugs, index, allowCreation, ms, i, j);
      ApartUnlessClash(lang, slugs, index, allowCreation, ms[p], ms[q]);
    }
  }

  /** Aliases that are their own normal forms suffice, whether or not dishes may be created. */
  lemma FixedPointsInsertOncePerDish(lang: Lang, policy: Policy, req: Request, keys: seq<string>, slugs: set<string>)
    requires Extraction.Lists(keys, req.index) && Sound(req.index, slugs) && FixedPoints(lang, req.index)
    ensures DistinctDishes(ResolveAll(lang, slugs, req.index, policy.allowCreation, Analyze(lang, policy, req, keys)).0)
  {
    FixedPointsAreSafe(lang, req.index);
    InsertsOncePerDish(lang, policy, req, keys, slugs);
  }

  // ---- reprocessing ----

  lemma {:induction false} ResolveGrows(lang: Lang, slugs: set<string>, index: Index, allowCreation: bool, ms: seq<Out>)
    ensures slugs <= ResolveAll(lang, slugs, index, allowCreation, ms).1
  {
    if ms != [] { ResolveGrows(lang, slugs, index, allowCreation, ms[..|ms| - 1]); }
  }

  /** Once the dishes it creates exist, resolving the same mentions gives the same rows and creates nothing. */
  lemma {:induction false} ResolveAgain(lang: Lang, slugs: set<string>, index: Index, allowCreation: bool, ms: seq<Out>, later: set<string>)
    requires Sound(index, slugs) && ResolveAll(lang, slugs, index, allowCreation, ms).1 <= later
    ensures ResolveAll(lang, later, index, allowCreation, ms) == (ResolveAll(lang, slugs, index, allowCreation, ms).0, later)
  {
    if ms != [] {
      var before, m := ms[..|ms| - 1], ms[|ms| - 1];
      var slugs' := ResolveAll(lang, slugs, index, allowCreation, before).1;
      ResolveGrows(lang, slugs, index, allowCreation, before);
      SameDish(lang, slugs', later, index, allowCreation, m);
      ResolveAgain(lang, slugs, index, allowCreation, before, later);
    }
  }

  lemma SameDish(lang: Lang, slugs: set<string>, later: set<string>, index: Index, allowCreation: bool, m: Out)
    requires Sound(index, slugs) && slugs <= later && Resolve(lang, slugs, index, allowCreation, m).1 <= later
    ensures slugs <= Resolve(lang, slugs, index, allowCreation, m).1
    ensures Resolve(lang, later, index, allowCreation, m) == (Resolve(lang, slugs, index, allowCreation, m).0, later)
  {
    forall c ensures LookupSlug(lang, slugs, index, c) == LookupSlug(lang, later, index, c) {}
    if Resolve(lang, slugs, index, allowCreation, m).0.Some? && LookupSlug(lang, slugs, index, m.AliasText()).None?
       && LookupSlug(lang, slugs, index, m.name).None? {
      assert later + {lang.slugify(lang.strip(m.name))} == later;
    }
  }

  lemma PutTwice<V>(rows: map<ReviewId, V>, id: ReviewId, row: V)
    ensures rows[id := row][id := row] == rows[id := row]
  {
  }

  /** Reprocessing a review with the same analysis reproduces its mention and aspect rows exactly. */
  lemma ReprocessingIsIdempotent(lang: Lang, t: Tables, index: Index, allowCreation: bool, id: ReviewId, a: Answer)
    requires Sound(index, t.slugs)
    ensures var once := Persisted(lang, t, index, allowCreation, id, a); Persisted(lang, once, index, allowCreation, id, a) == once
  {
    var (rows, slugs) := ResolveAll(lang, t.slugs, index, allowCreation, a.mentions);
    ResolveAgain(lang, t.slugs, index, allowCreation, a.mentions, slugs);
    PutTwice(t.mentions, id, MentionRowsOf(rows, a.byModel));
    PutTwice(t.aspects, id, AspectRowsOf(rows) + ReviewAspects(a.aspects));
  }

  // ---- what is resolved and stored ----

  /** The name leads to a dish that exists. */
  predicate LeadsToDish(lang: Lang, slugs: set<string>, index: Index, name: string) {
    name != "" && lang.normalize(name) in index && index[lang.normalize(name)] != "" && index[lang.normalize(name)] in slugs
  }

  /** The alias decides before the name; only where neither leads to a dish is one created, from three letters on and if that is allowed. */
  lemma ResolvedIs(lang: Lang, slugs: set<string>, index: Index, allowCreation: bool, m: Out)
    ensures var (dish, after) := Resolve(lang, slugs, index, allowCreation, m);
            var alias := match m.alias case None => "" case Some(a) => a;
            && (dish.Some? ==> dish.value in after && after == slugs + {dish.value}) && (dish.None? ==> after == slugs)
            && (LeadsToDish(lang, slugs, index, alias) ==> dish == Some(index[lang.normalize(alias)]))
            && (!LeadsToDish(lang, slugs, index, alias) && LeadsToDish(lang, slugs, index, m.name) ==> dish == Some(index[lang.normalize(m.name)]))
            && (!LeadsToDish(lang, slugs, index, alias) && !LeadsToDish(lang, slugs, index, m.name) ==>
                  dish == if allowCreation && |lang.strip(m.name)| >= 3 then Some(lang.slugify(lang.strip(m.name))) else None)
  {
    var dish := Resolve(lang, slugs, index, allowCreation, m).0;
    if dish.Some? && dish.value in slugs { assert slugs + {dish.value} == slugs; }
  }

  /** A row for each resolved mention, in order, with the mention's own words and numbers. */
  lemma RowsCarryMentions(lang: Lang, t: Tables, index: Index, allowCreation: bool, id: ReviewId, a: Answer)
    ensures var resolved, rows := ResolveAll(lang, t.slugs, index, allowCreation, a.mentions).0,
                                  Persisted(lang, t, index, allowCreation, id, a).mentions[id];
            && |rows| == |resolved|
            && forall i | 0 <= i < |rows| ::
                 var row, m := rows[i], resolved[i].mention;
                 && row.dish == resolved[i].dish && row.sentiment == m.sentiment && row.confidence == m.confidence
                 && row.snippet == m.snippet && row.attributes == m.attributes && row.price == m.price
                 && row.recommended == m.recommended && row.byModel == a.byModel
    ensures forall r | r in t.mentions && r != id :: Persisted(lang, t, index, allowCreation, id, a).mentions[r] == t.mentions[r]
  {
  }

  lemma {:induction false} AspectRowsAre(resolved: seq<Resolved>, row: AspectRow)
    ensures row in AspectRowsOf(resolved)
            <==> exists r, aspect :: r in resolved && aspect in r.mention.aspects
                   && row == AspectRow(Some(r.dish), aspect, r.mention.sentiment, r.mention.confidence)
  {
    if resolved != [] {
      var before, last := resolved[..|resolved| - 1], resolved[|resolved| - 1];
      AspectRowsAre(before, row);
      assert resolved == before + [last];
      AspectsOfOne(last, row);
    }
  }

  lemma AspectsOfOne(r: Resolved, row: AspectRow)
    ensures row in AspectsOfMention(r)
            <==> exists aspect :: aspect in r.mention.aspects && row == AspectRow(Some(r.dish), aspect, r.mention.sentiment, r.mention.confidence)
  {
    if aspect :| aspect in r.mention.aspects && row == AspectRow(Some(r.dish), aspect, r.mention.sentiment, r.mention.confidence) {
      var i :| 0 <= i < |r.mention.aspects| && r.mention.aspects[i] == aspect;
      assert AspectsOfMention(r)[i] == row;
    }
  }

  /** Aspects of mentions carry the mention's sentiment and its dish, those of the review their own and no dish. */
  lemma {:induction false} AspectsCarryMentions(lang: Lang, t: Tables, index: Index, allowCreation: bool, id: ReviewId, a: Answer, row: AspectRow)
    ensures row in Persisted(lang, t, index, allowCreation, id, a).aspects[id]
            <==> (exists r, aspect :: r in ResolveAll(lang, t.slugs, index, allowCreation, a.mentions).0 && aspect in r.mention.aspects
                    && row == AspectRow(Some(r.dish), aspect, r.mention.sentiment, r.mention.confidence))
                 || (exists x :: x in a.aspects && row == AspectRow(None, x.aspect, x.sentiment, x.confidence))
  {
    AspectRowsAre(ResolveAll(lang, t.slugs, index, allowCreation, a.mentions).0, row);
    if x :| x in a.aspects && row == AspectRow(None, x.aspect, x.sentiment, x.confidence) {
      var i :| 0 <= i < |a.aspects| && a.aspects[i] == x;
      assert ReviewAspects(a.aspects)[i] == row;
    }
  }
}
