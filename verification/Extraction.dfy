/**
 * Dish extraction without a model: aliases are matched longest first in each clause, an alias
 * matched inside a longer match is not credited again, and each dish keeps its most confident hit.
 */
module Extraction {
  import opened Wrappers
  import opened Sorting
  import opened Strings
  import opened ClauseSentiment

  datatype Span = Span(from: nat, to: nat)

  predicate Inside(s: Span, t: Span) { t.from <= s.from && s.to <= t.to }

  /** The text functions the extractor calls. `search` is the first match of a normalised alias in a normalised clause. */
  datatype Lang = Lang(
    lexicon: Lexicon,
    normalize: string -> string,
    words: string -> seq<string>,
    clauses: string -> seq<string>,
    search: (string, string) -> Option<Span>,
    attributes: string -> seq<string>,
    prices: string -> seq<real>,
    aspects: string -> seq<string>,
    similar: (string, string) -> bool,
    strip: string -> string,
    slugify: string -> string)
  {
    function Score(clause: string): (real, real) {
      Clause(lexicon, normalize(clause), words(normalize(clause)))
    }

    /** The pattern of an alias is built from its normal form; an empty one matches nothing. */
    function Find(alias: string, clause: string): Option<Span> {
      if normalize(alias) == "" then None else search(normalize(alias), clause)
    }
  }

  /** Normalised alias to dish slug. */
  type Index = map<string, string>

  datatype Hit = Hit(
    dish: string, alias: string, clause: string, sentiment: real, confidence: real,
    attributes: seq<string>, price: Option<real>, aspects: seq<string>)

  // ---- aliases, longest first ----

  function LongerFirst(): (string, string) -> bool {
    (a: string, b: string) => |a| > |b| || (|a| == |b| && LexLess(a, b))
  }

  function Aliases(keys: seq<string>): (r: seq<string>)
    ensures multiset(r) == multiset(keys)
  {
    Sort(LongerFirst(), keys)
  }

  lemma LongerFirstIsOrder(keys: seq<string>)
    ensures StrictOrderOn(LongerFirst(), keys)
  {
    forall a ensures !LongerFirst()(a, a) { LexIrreflexive(a); }
    forall a: string, b: string | a != b ensures LongerFirst()(a, b) || LongerFirst()(b, a) { LexTotal(a, b); }
    forall a: string, b: string, c: string | LongerFirst()(a, b) && LongerFirst()(b, c) ensures LongerFirst()(a, c) {
      if |a| == |b| && |b| == |c| { LexTransitive(a, b, c); }
    }
  }

  // ---- one clause ----

  /** The aliases credited in a clause, given the spans already consumed. */
  function Credited(lang: Lang, clause: string, aliases: seq<string>, consumed: seq<Span>): seq<string> {
    if aliases == [] then [] else
      match lang.Find(aliases[0], clause)
      case None => Credited(lang, clause, aliases[1..], consumed)
      case Some(span) =>
        if exists i | 0 <= i < |consumed| :: Inside(span, consumed[i])
        then Credited(lang, clause, aliases[1..], consumed)
        else [aliases[0]] + Credited(lang, clause, aliases[1..], consumed + [span])
  }

  function LowestPrice(prices: seq<real>): Option<real> {
    if prices == [] then None else
      match LowestPrice(prices[1..])
      case None => Some(prices[0])
      case Some(p) => Some(Min(prices[0], p))
  }

  function HitFor(lang: Lang, index: Index, clause: string, alias: string): Hit
    requires alias in index
  {
    var (sentiment, confidence) := lang.Score(clause);
    Hit(index[alias], alias, if |clause| <= 320 then clause else clause[..320], sentiment, confidence,
        lang.attributes(clause), LowestPrice(lang.prices(clause)), lang.aspects(clause))
  }

  function HitsFor(lang: Lang, index: Index, clause: string, aliases: seq<string>): (r: seq<Hit>)
    requires forall a | a in aliases :: a in index
    ensures |r| == |aliases| && forall i | 0 <= i < |r| :: r[i] == HitFor(lang, index, clause, aliases[i])
  {
    seq(|aliases|, i requires 0 <= i < |aliases| => HitFor(lang, index, clause, aliases[i]))
  }

  lemma {:induction false} CreditedAreAliases(lang: Lang, clause: string, aliases: seq<string>, consumed: seq<Span>)
    ensures forall a | a in Credited(lang, clause, aliases, consumed) :: a in aliases && lang.Find(a, clause).Some?
  {
    if aliases != [] {
      var rest := aliases[1..];
      forall a | a in rest ensures a in aliases {}
      match lang.Find(aliases[0], clause)
      case None => CreditedAreAliases(lang, clause, rest, consumed);
      case Some(span) =>
        CreditedAreAliases(lang, clause, rest, consumed);
        CreditedAreAliases(lang, clause, rest, consumed + [span]);
    }
  }

  ghost predicate Free(span: Span, consumed: seq<Span>) {
    forall i | 0 <= i < |consumed| :: !Inside(span, consumed[i])
  }

  /** `a` is found in the clause, inside no consumed span and inside no credited alias among the first `n`. */
  ghost predicate Earns(lang: Lang, clause: string, a: string, before: seq<string>, credited: seq<string>, consumed: seq<Span>) {
    var span := lang.Find(a, clause);
    && span.Some? && Free(span.value, consumed)
    && forall b | b in before && b in credited && lang.Find(b, clause).Some? :: !Inside(span.value, lang.Find(b, clause).value)
  }

  /** An alias is credited exactly when it is found outside every span consumed or credited before it. */
  lemma {:induction false} CreditedIff(lang: Lang, clause: string, aliases: seq<string>, consumed: seq<Span>, k: nat)
    requires k < |aliases| && Distinct(aliases)
    ensures var r := Credited(lang, clause, aliases, consumed);
            aliases[k] in r <==> Earns(lang, clause, aliases[k], aliases[..k], r, consumed)
  {
    var rest, span := aliases[1..], lang.Find(aliases[0], clause);
    var r := Credited(lang, clause, aliases, consumed);
    var takes := span.Some? && Free(span.value, consumed);
    var consumed' := if takes then consumed + [span.value] else consumed;
    var tail := Credited(lang, clause, rest, consumed');
    assert r == if takes then [aliases[0]] + tail else tail;
    CreditedAreAliases(lang, clause, rest, consumed');
    assert aliases[0] !in rest;
    if k == 0 {
      assert aliases[..0] == [];
    } else {
      CreditedIff(lang, clause, rest, consumed', k - 1);
      assert aliases[..k] == [aliases[0]] + rest[..k - 1];
      var a := aliases[k];
      assert a in r <==> a in tail;
      forall b ensures b in aliases[..k] && b in r <==> (takes && b == aliases[0]) || (b in rest[..k - 1] && b in tail) {
        assert b in rest[..k - 1] ==> b in rest;
        assert b in tail ==> b in rest;
      }
      EarnsStep(lang, clause, a, aliases[0], aliases[..k], r, consumed, rest[..k - 1], tail, takes);
    }
  }

  lemma EarnsStep(lang: Lang, clause: string, a: string, first: string, before: seq<string>, r: seq<string>, consumed: seq<Span>,
                  later: seq<string>, tail: seq<string>, takes: bool)
    requires takes ==> lang.Find(first, clause).Some?
    requires forall b :: b in before && b in r <==> (takes && b == first) || (b in later && b in tail)
    ensures Earns(lang, clause, a, before, r, consumed)
            <==> Earns(lang, clause, a, later, tail, if takes then consumed + [lang.Find(first, clause).value] else consumed)
  {
    var span := lang.Find(a, clause);
    if span.Some? && takes {
      var more := consumed + [lang.Find(first, clause).value];
      assert Free(span.value, more) <==> Free(span.value, consumed) && !Inside(span.value, more[|consumed|]) by {
        if Free(span.value, more) {
          forall i | 0 <= i < |consumed| ensures !Inside(span.value, consumed[i]) { assert more[i] == consumed[i]; }
        }
      }
    }
  }

  /** An alias is credited if it is found and no other credited alias takes its span. */
  lemma CreditedIfNotTaken(lang: Lang, clause: string, aliases: seq<string>, x: string)
    requires Distinct(aliases) && x in aliases && lang.Find(x, clause).Some?
    requires forall c | c in Credited(lang, clause, aliases, []) && c != x && lang.Find(c, clause).Some? ::
               !Inside(lang.Find(x, clause).value, lang.Find(c, clause).value)
    ensures x in Credited(lang, clause, aliases, [])
  {
    var k :| 0 <= k < |aliases| && aliases[k] == x;
    CreditedIff(lang, clause, aliases, [], k);
  }

  /** `a` is the first alias of its normal form in the order of the search. */
  ghost predicate Leader(normalize: string -> string, index: Index, a: string) {
    a in index && forall b | b in index && normalize(b) == normalize(a) && b != a :: LongerFirst()(a, b)
  }

  /** Aliases with one normal form share a pattern, so only the first of them is ever credited. */
  lemma CreditedAreLeaders(lang: Lang, clause: string, index: Index, keys: seq<string>, a: string)
    requires Lists(keys, index) && a in Credited(lang, clause, Aliases(keys), [])
    ensures Leader(lang.normalize, index, a)
  {
    SameElements(keys, Aliases(keys));
    CreditedAreAliases(lang, clause, Aliases(keys), []);
    forall b | b in index && lang.normalize(b) == lang.normalize(a) && b != a ensures LongerFirst()(a, b) {
      CreditedComesFirst(lang, clause, keys, a, b);
    }
  }

  lemma CreditedComesFirst(lang: Lang, clause: string, keys: seq<string>, a: string, b: string)
    requires Distinct(keys) && b in Aliases(keys) && b != a && lang.normalize(b) == lang.normalize(a)
    requires a in Credited(lang, clause, Aliases(keys), [])
    ensures LongerFirst()(a, b)
  {
    var aliases := Aliases(keys);
    SortedAliases(keys);
    CreditedAreAliases(lang, clause, aliases, []);
    var k :| 0 <= k < |aliases| && aliases[k] == a;
    var j :| 0 <= j < |aliases| && aliases[j] == b;
    if j < k { EarlierTakes(lang, clause, aliases, j, k); }
  }

  lemma LongerFirstAsymmetric(a: string, b: string)
    ensures !(LongerFirst()(a, b) && LongerFirst()(b, a))
  {
    LexIrreflexive(a);
    if LexLess(a, b) && LexLess(b, a) { LexTransitive(a, b, a); }
  }

  lemma SortedAliases(keys: seq<string>)
    requires Distinct(keys)
    ensures Sorted(LongerFirst(), Aliases(keys)) && Distinct(Aliases(keys))
  {
    LongerFirstIsOrder(keys);
    SortSorted(LongerFirst(), keys);
    DistinctPermutation(keys, Aliases(keys));
  }

  /** Either the earlier alias is credited and its span takes the later one's, or what took the one took the other. */
  lemma EarlierTakes(lang: Lang, clause: string, aliases: seq<string>, j: nat, k: nat)
    requires j < k < |aliases| && Distinct(aliases) && lang.normalize(aliases[j]) == lang.normalize(aliases[k])
    ensures aliases[k] !in Credited(lang, clause, aliases, [])
  {
    CreditedIff(lang, clause, aliases, [], j);
    CreditedIff(lang, clause, aliases, [], k);
    assert lang.Find(aliases[j], clause) == lang.Find(aliases[k], clause);
    assert aliases[j] in aliases[..k];
    forall b | b in aliases[..j] ensures b in aliases[..k] {}
  }

  // ---- the longest alias first ----

  /** Aliases are tried from the longest to the shortest, and alphabetically among equals. */
  lemma LongestFirst(keys: seq<string>, i: nat, j: nat)
    requires Distinct(keys) && i < j < |Aliases(keys)|
    ensures |Aliases(keys)[i]| >= |Aliases(keys)[j]|
    ensures |Aliases(keys)[i]| == |Aliases(keys)[j]| ==> LexLess(Aliases(keys)[i], Aliases(keys)[j])
  {
    SortedAliases(keys);
  }

  lemma LongerIsEarlier(keys: seq<string>, i: nat, j: nat)
    requires Distinct(keys) && i < |Aliases(keys)| && j < |Aliases(keys)| && |Aliases(keys)[j]| > |Aliases(keys)[i]|
    ensures j < i
  {
    if i < j { LongestFirst(keys, i, j); }
  }

  /** The first span lies within the second. */
  ghost predicate Covered(lang: Lang, clause: string, a: string, b: string) {
    var s, t := lang.Find(a, clause), lang.Find(b, clause);
    s.Some? && t.Some? && t.value.from <= s.value.from && s.value.to <= t.value.to
  }

  /**
   * The longest alias wins: an alias found within the span of a longer credited one is not credited, so
   * of two credited aliases the shorter never lies within the longer.
   */
  lemma {:induction false} LongestWins(lang: Lang, clause: string, keys: seq<string>, a: string, b: string)
    requires Distinct(keys) && a in keys && b in Credited(lang, clause, Aliases(keys), []) && |b| > |a|
    requires Covered(lang, clause, a, b)
    ensures a !in Credited(lang, clause, Aliases(keys), [])
  {
    var aliases := Aliases(keys);
    SortedAliases(keys);
    SameElements(keys, aliases);
    CreditedAreAliases(lang, clause, aliases, []);
    var i :| 0 <= i < |aliases| && aliases[i] == a;
    var j :| 0 <= j < |aliases| && aliases[j] == b;
    LongerIsEarlier(keys, i, j);
    assert aliases[..i][j] == b;
    CreditedIff(lang, clause, aliases, [], i);
  }

  /** The longest alias that is found at all is always credited. */
  lemma LongestIsCredited(lang: Lang, clause: string, keys: seq<string>, a: string)
    requires Distinct(keys) && a in keys && lang.Find(a, clause).Some?
    requires forall b | b in keys && b != a && lang.Find(b, clause).Some? :: |b| < |a|
    ensures a in Credited(lang, clause, Aliases(keys), [])
  {
    if a !in Credited(lang, clause, Aliases(keys), []) {
      var b := LeftOutForLonger(lang, clause, keys, a);
      CreditedAreAliases(lang, clause, Aliases(keys), []);
      SameElements(keys, Aliases(keys));
      assert false;
    }
  }

  /**
   * An alias is left out only for a reason: it is not found, or it lies within the span of a credited
   * alias that is at least as long.
   */
  lemma LeftOutForLonger(lang: Lang, clause: string, keys: seq<string>, a: string) returns (b: string)
    requires Distinct(keys) && a in keys && lang.Find(a, clause).Some? && a !in Credited(lang, clause, Aliases(keys), [])
    ensures b in Credited(lang, clause, Aliases(keys), []) && |b| >= |a| && Covered(lang, clause, a, b)
  {
    var aliases := Aliases(keys);
    SortedAliases(keys);
    SameElements(keys, aliases);
    CreditedAreAliases(lang, clause, aliases, []);
    var i :| 0 <= i < |aliases| && aliases[i] == a;
    CreditedIff(lang, clause, aliases, [], i);
    b :| b in aliases[..i] && b in Credited(lang, clause, aliases, []) && lang.Find(b, clause).Some?
         && Inside(lang.Find(a, clause).value, lang.Find(b, clause).value);
    var j :| 0 <= j < i && aliases[j] == b;
    LongestFirst(keys, j, i);
  }

  // ---- the whole text ----

  function Stream(lang: Lang, index: Index, aliases: seq<string>, clauses: seq<string>): seq<Hit>
    requires forall a | a in aliases :: a in index
  {
    if clauses == [] then [] else
      Stream(lang, index, aliases, clauses[..|clauses| - 1]) + ClauseHits(lang, index, aliases, clauses[|clauses| - 1])
  }

  function ClauseHits(lang: Lang, index: Index, aliases: seq<string>, clause: string): seq<Hit>
    requires forall a | a in aliases :: a in index
  {
    var norm := lang.normalize(clause);
    if norm == "" then [] else
      CreditedAreAliases(lang, norm, aliases, []);
      HitsFor(lang, index, clause, Credited(lang, norm, aliases, []))
  }

  /** The `by_dish` dictionary: insertion order, one entry a dish, replaced only by a more confident hit. */
  function Put(hits: seq<Hit>, h: Hit): seq<Hit> {
    if hits == [] then [h]
    else if hits[0].dish == h.dish then (if h.confidence > hits[0].confidence then [h] else [hits[0]]) + hits[1..]
    else [hits[0]] + Put(hits[1..], h)
  }

  function Best(stream: seq<Hit>): seq<Hit> {
    if stream == [] then [] else Put(Best(stream[..|stream| - 1]), stream[|stream| - 1])
  }

  function Extract(lang: Lang, index: Index, keys: seq<string>, text: string): seq<Hit>
    requires Lists(keys, index)
  {
    SameElements(keys, Aliases(keys));
    Best(Stream(lang, index, Aliases(keys), lang.clauses(text)))
  }

  /** `keys` lists the index in the order it was filled. */
  ghost predicate Lists(keys: seq<string>, index: Index) {
    Distinct(keys) && forall a :: a in keys <==> a in index
  }

  /** What the extractor finds does not depend on the order in which the index was filled. */
  lemma ExtractIgnoresIndexOrder(lang: Lang, index: Index, s: seq<string>, t: seq<string>, text: string)
    requires Lists(s, index) && Lists(t, index)
    ensures Extract(lang, index, s, text) == Extract(lang, index, t, text)
  {
    DistinctIsMultiplicity(s);
    DistinctIsMultiplicity(t);
    assert multiset(s) == multiset(t);
    LongerFirstIsOrder(s);
    SortPermutation(LongerFirst(), s, t);
  }

  /** A hit is for the dish its alias stands for, quotes the start of its clause, and carries the lowest price there. */
  lemma HitMeans(lang: Lang, index: Index, clause: string, alias: string)
    requires alias in index
    ensures var h := HitFor(lang, index, clause, alias);
            && h.dish == index[alias] && h.alias == alias && (h.sentiment, h.confidence) == lang.Score(clause)
            && h.clause <= clause && |h.clause| <= 320 && (|clause| <= 320 ==> h.clause == clause)
            && h.attributes == lang.attributes(clause) && h.aspects == lang.aspects(clause)
            && (h.price.None? <==> lang.prices(clause) == [])
            && (h.price.Some? ==> h.price.value in lang.prices(clause) && forall p | p in lang.prices(clause) :: h.price.value <= p)
  {
    LowestIsLeast(lang.prices(clause));
  }

  lemma {:induction false} LowestIsLeast(prices: seq<real>)
    ensures LowestPrice(prices).None? <==> prices == []
    ensures LowestPrice(prices).Some? ==> LowestPrice(prices).value in prices && forall p | p in prices :: LowestPrice(prices).value <= p
  {
    if prices != [] {
      LowestIsLeast(prices[1..]);
      assert prices == [prices[0]] + prices[1..];
    }
  }

  // ---- what the dictionary keeps ----

  ghost predicate OnePerDish(hits: seq<Hit>) {
    forall i, j | 0 <= i < j < |hits| :: hits[i].dish != hits[j].dish
  }

  function Lookup(hits: seq<Hit>, dish: string): Option<Hit> {
    if hits == [] then None else if hits[0].dish == dish then Some(hits[0]) else Lookup(hits[1..], dish)
  }

  lemma {:induction false} LookupIff(hits: seq<Hit>, dish: string)
    ensures Lookup(hits, dish).Some? <==> exists i :: 0 <= i < |hits| && hits[i].dish == dish
    ensures forall i | 0 <= i < |hits| && hits[i].dish == dish && OnePerDish(hits) :: Lookup(hits, dish) == Some(hits[i])
    ensures Lookup(hits, dish).Some? ==> Lookup(hits, dish).value in hits && Lookup(hits, dish).value.dish == dish
  {
    if hits != [] {
      LookupIff(hits[1..], dish);
      assert hits == [hits[0]] + hits[1..];
      if i :| 0 <= i < |hits| && hits[i].dish == dish && hits[0].dish != dish {
        assert hits[1..][i - 1].dish == dish;
      }
    }
  }

  lemma {:induction false} PutKeeps(hits: seq<Hit>, h: Hit)
    requires OnePerDish(hits)
    ensures OnePerDish(Put(hits, h))
    ensures forall i | 0 <= i < |Put(hits, h)| :: Put(hits, h)[i].dish == h.dish || exists j :: 0 <= j < |hits| && hits[j].dish == Put(hits, h)[i].dish
  {
    if hits != [] && hits[0].dish != h.dish {
      PutKeeps(hits[1..], h);
    }
  }

  lemma {:induction false} PutLookup(hits: seq<Hit>, h: Hit, dish: string)
    ensures Lookup(Put(hits, h), dish)
            == if dish != h.dish then Lookup(hits, dish)
               else match Lookup(hits, dish)
                    case None => Some(h)
                    case Some(e) => if h.confidence > e.confidence then Some(h) else Some(e)
  {
    if hits != [] && hits[0].dish != h.dish {
      PutLookup(hits[1..], h, dish);
    }
  }

  /** The first of the most confident hits for a dish. */
  ghost predicate Leads(stream: seq<Hit>, dish: string, i: nat) {
    && i < |stream| && stream[i].dish == dish
    && forall j | 0 <= j < |stream| && stream[j].dish == dish ::
         stream[j].confidence <= stream[i].confidence && (j < i ==> stream[j].confidence < stream[i].confidence)
  }

  lemma {:induction false} BestOnePerDish(stream: seq<Hit>)
    ensures OnePerDish(Best(stream))
  {
    if stream != [] {
      BestOnePerDish(stream[..|stream| - 1]);
      PutKeeps(Best(stream[..|stream| - 1]), stream[|stream| - 1]);
    }
  }

  /** A dish is kept exactly if it was hit, and what is kept is the first of its most confident hits. */
  lemma {:induction false} BestLeads(stream: seq<Hit>, dish: string)
    ensures Lookup(Best(stream), dish).Some? <==> exists i :: 0 <= i < |stream| && stream[i].dish == dish
    ensures Lookup(Best(stream), dish).Some? ==> exists i: nat :: Leads(stream, dish, i) && Lookup(Best(stream), dish) == Some(stream[i])
  {
    if stream != [] {
      var n := |stream| - 1;
      var before, h := stream[..n], stream[n];
      BestLeads(before, dish);
      PutLookup(Best(before), h, dish);
      if Lookup(Best(before), dish).Some? {
        var i: nat :| Leads(before, dish, i) && Lookup(Best(before), dish) == Some(before[i]);
        LeadsNext(before, h, dish, i);
      } else {
        LeadsFirst(before, h, dish);
      }
      assert before + [h] == stream;
    }
  }

  lemma LeadsFirst(before: seq<Hit>, h: Hit, dish: string)
    requires forall i | 0 <= i < |before| :: before[i].dish != dish
    ensures h.dish == dish ==> Leads(before + [h], dish, |before|)
    ensures h.dish != dish ==> forall i | 0 <= i < |before + [h]| :: (before + [h])[i].dish != dish
  {
  }

  lemma LeadsNext(before: seq<Hit>, h: Hit, dish: string, i: nat)
    requires Leads(before, dish, i)
    ensures if h.dish == dish && h.confidence > before[i].confidence then Leads(before + [h], dish, |before|)
            else Leads(before + [h], dish, i)
  {
  }

  /** The clause, normalised and not empty, credits the alias. */
  ghost predicate CreditedIn(lang: Lang, keys: seq<string>, clause: string, alias: string) {
    lang.normalize(clause) != "" && alias in Credited(lang, lang.normalize(clause), Aliases(keys), [])
  }

  /** The hit is made of this clause and an alias that it credits. */
  ghost predicate HitOf(lang: Lang, index: Index, keys: seq<string>, clause: string, h: Hit) {
    exists alias :: CreditedIn(lang, keys, clause, alias) && alias in index && h == HitFor(lang, index, clause, alias)
  }

  lemma {:induction false} StreamIs(lang: Lang, index: Index, keys: seq<string>, clauses: seq<string>, h: Hit)
    requires Lists(keys, index) && forall a | a in Aliases(keys) :: a in index
    ensures h in Stream(lang, index, Aliases(keys), clauses) <==> exists clause :: clause in clauses && HitOf(lang, index, keys, clause, h)
  {
    if clauses != [] {
      var before, last := clauses[..|clauses| - 1], clauses[|clauses| - 1];
      StreamIs(lang, index, keys, before, h);
      ClauseHitsAre(lang, index, keys, last, h);
      InFrontOrLast(clauses, last);
      forall clause ensures clause in clauses <==> clause in before || clause == last { InFrontOrLast(clauses, clause); }
    }
  }

  lemma InFrontOrLast<T>(s: seq<T>, x: T)
    requires s != []
    ensures x in s <==> x in s[..|s| - 1] || x == s[|s| - 1]
  {
    assert s == s[..|s| - 1] + [s[|s| - 1]];
  }

  lemma ClauseHitsAre(lang: Lang, index: Index, keys: seq<string>, clause: string, h: Hit)
    requires Lists(keys, index) && forall a | a in Aliases(keys) :: a in index
    ensures h in ClauseHits(lang, index, Aliases(keys), clause) <==> HitOf(lang, index, keys, clause, h)
  {
    var norm := lang.normalize(clause);
    var credited := Credited(lang, norm, Aliases(keys), []);
    CreditedAreAliases(lang, norm, Aliases(keys), []);
    if alias :| CreditedIn(lang, keys, clause, alias) && alias in index && h == HitFor(lang, index, clause, alias) {
      var i :| 0 <= i < |credited| && credited[i] == alias;
      assert HitsFor(lang, index, clause, credited)[i] == h;
    }
  }

  /**
   * What is extracted: for a dish something exactly if some clause credits an alias of it, and then one hit,
   * made of such a clause and alias, with the highest confidence of all of them.
   */
  lemma ExtractedIs(lang: Lang, index: Index, keys: seq<string>, text: string, dish: string)
    requires Lists(keys, index)
    ensures var hits := Extract(lang, index, keys, text);
            && ((exists h :: h in hits && h.dish == dish)
                <==> exists clause, alias :: clause in lang.clauses(text) && CreditedIn(lang, keys, clause, alias) && alias in index && index[alias] == dish)
            && forall h | h in hits && h.dish == dish ::
                 && (exists clause, alias :: clause in lang.clauses(text) && CreditedIn(lang, keys, clause, alias) && alias in index
                       && index[alias] == dish && h == HitFor(lang, index, clause, alias))
                 && forall clause, alias | clause in lang.clauses(text) && CreditedIn(lang, keys, clause, alias) && alias in index && index[alias] == dish ::
                      h.confidence >= HitFor(lang, index, clause, alias).confidence
  {
    SameElements(keys, Aliases(keys));
    var stream := Stream(lang, index, Aliases(keys), lang.clauses(text));
    forall h ensures h in stream <==> exists clause :: clause in lang.clauses(text) && HitOf(lang, index, keys, clause, h) {
      StreamIs(lang, index, keys, lang.clauses(text), h);
    }
    KeptOf(stream, dish);
    forall clause, alias | clause in lang.clauses(text) && CreditedIn(lang, keys, clause, alias) && alias in index
      ensures HitFor(lang, index, clause, alias) in stream
    {
      assert HitOf(lang, index, keys, clause, HitFor(lang, index, clause, alias));
    }
  }

  /** The dictionary holds something for a dish exactly if the stream does, and then one of the most confident hits of the stream. */
  lemma {:induction false} KeptOf(stream: seq<Hit>, dish: string)
    ensures (exists h :: h in Best(stream) && h.dish == dish) <==> exists h :: h in stream && h.dish == dish
    ensures forall h | h in Best(stream) && h.dish == dish :: h in stream && forall g | g in stream && g.dish == dish :: g.confidence <= h.confidence
  {
    BestLeads(stream, dish);
    BestOnePerDish(stream);
    LookupIff(Best(stream), dish);
    forall h | h in Best(stream) && h.dish == dish
      ensures h in stream && forall g | g in stream && g.dish == dish :: g.confidence <= h.confidence
    {
      var j :| 0 <= j < |Best(stream)| && Best(stream)[j] == h;
      var i: nat :| Leads(stream, dish, i) && Lookup(Best(stream), dish) == Some(stream[i]);
      assert stream[i] in stream;
    }
    if h :| h in stream && h.dish == dish { var i :| 0 <= i < |stream| && stream[i] == h; }
    if Lookup(Best(stream), dish).Some? { assert Lookup(Best(stream), dish).value in Best(stream); }
    if h :| h in Best(stream) && h.dish == dish { var i :| 0 <= i < |Best(stream)| && Best(stream)[i] == h; }
  }

  // ---- the loops ----

  /** What is left to credit after the first `i` aliases, and the dictionary with the aliases of `done` in it. */
  ghost predicate CreditedUpto(lang: Lang, index: Index, aliases: seq<string>, clause: string, stream: seq<Hit>,
                               i: nat, consumed: seq<Span>, done: seq<string>, hits: seq<Hit>)
    requires i <= |aliases|
  {
    var norm := lang.normalize(clause);
    && Credited(lang, norm, aliases, []) == done + Credited(lang, norm, aliases[i..], consumed)
    && (forall a | a in done :: a in index)
    && hits == Best(stream + HitsFor(lang, index, clause, done))
  }

  lemma CreditNext(lang: Lang, index: Index, aliases: seq<string>, clause: string, stream: seq<Hit>,
                   i: nat, consumed: seq<Span>, done: seq<string>, hits: seq<Hit>)
    requires i < |aliases| && aliases[i] in index
    requires CreditedUpto(lang, index, aliases, clause, stream, i, consumed, done, hits)
    ensures var found := lang.Find(aliases[i], lang.normalize(clause));
            if found.Some? && Free(found.value, consumed)
            then CreditedUpto(lang, index, aliases, clause, stream, i + 1, consumed + [found.value], done + [aliases[i]],
                              Put(hits, HitFor(lang, index, clause, aliases[i])))
            else CreditedUpto(lang, index, aliases, clause, stream, i + 1, consumed, done, hits)
  {
    var norm, a := lang.normalize(clause), aliases[i];
    CreditedStep(lang, norm, aliases, i, consumed);
    var found := lang.Find(a, norm);
    if found.Some? && Free(found.value, consumed) {
      OneMoreHit(lang, index, clause, stream, done, a);
      MoveOne(done, a, Credited(lang, norm, aliases[i + 1..], consumed + [found.value]));
    }
  }

  lemma MoveOne(done: seq<string>, a: string, rest: seq<string>)
    ensures done + ([a] + rest) == (done + [a]) + rest
  {
  }

  lemma {:induction false} CreditStart(lang: Lang, index: Index, aliases: seq<string>, clause: string, stream: seq<Hit>)
    ensures CreditedUpto(lang, index, aliases, clause, stream, 0, [], [], Best(stream))
  {
    assert aliases[0..] == aliases && stream + HitsFor(lang, index, clause, []) == stream;
  }

  lemma CreditEnd(lang: Lang, index: Index, aliases: seq<string>, clause: string, stream: seq<Hit>,
                  consumed: seq<Span>, done: seq<string>, hits: seq<Hit>)
    requires forall a | a in aliases :: a in index
    requires lang.normalize(clause) != "" && CreditedUpto(lang, index, aliases, clause, stream, |aliases|, consumed, done, hits)
    ensures hits == Best(stream + ClauseHits(lang, index, aliases, clause))
  {
    assert Credited(lang, lang.normalize(clause), aliases, []) == done;
  }

  /** Credit the aliases of one clause against the dictionary. */
  method CreditClause(lang: Lang, index: Index, aliases: seq<string>, clause: string, byDish: seq<Hit>, ghost stream: seq<Hit>)
    returns (hits: seq<Hit>)
    requires forall a | a in aliases :: a in index
    requires byDish == Best(stream)
    ensures hits == Best(stream + ClauseHits(lang, index, aliases, clause))
  {
    hits := byDish;
    var norm := lang.normalize(clause);
    if norm == "" {
      assert stream + [] == stream;
      return;
    }
    var consumed: seq<Span> := [];
    ghost var done: seq<string> := [];
    CreditStart(lang, index, aliases, clause, stream);
    for i := 0 to |aliases|
      invariant CreditedUpto(lang, index, aliases, clause, stream, i, consumed, done, hits)
    {
      var alias := aliases[i];
      CreditNext(lang, index, aliases, clause, stream, i, consumed, done, hits);
      var found := lang.Find(alias, norm);
      if found.Some? && !exists j | 0 <= j < |consumed| :: Inside(found.value, consumed[j]) {
        consumed := consumed + [found.value];
        hits := Put(hits, HitFor(lang, index, clause, alias));
        done := done + [alias];
      }
    }
    CreditEnd(lang, index, aliases, clause, stream, consumed, done, hits);
  }

  lemma CreditedStep(lang: Lang, clause: string, aliases: seq<string>, i: nat, consumed: seq<Span>)
    requires i < |aliases|
    ensures var found, rest := lang.Find(aliases[i], clause), aliases[i + 1..];
            Credited(lang, clause, aliases[i..], consumed)
            == if found.Some? && Free(found.value, consumed)
               then [aliases[i]] + Credited(lang, clause, rest, consumed + [found.value])
               else Credited(lang, clause, rest, consumed)
  {
    assert aliases[i..][0] == aliases[i] && aliases[i..][1..] == aliases[i + 1..];
  }

  lemma OneMoreHit(lang: Lang, index: Index, clause: string, stream: seq<Hit>, done: seq<string>, alias: string)
    requires (forall a | a in done :: a in index) && alias in index
    ensures forall a | a in done + [alias] :: a in index
    ensures Best(stream + HitsFor(lang, index, clause, done + [alias]))
            == Put(Best(stream + HitsFor(lang, index, clause, done)), HitFor(lang, index, clause, alias))
  {
    var s := stream + HitsFor(lang, index, clause, done);
    var t := stream + HitsFor(lang, index, clause, done + [alias]);
    assert t == s + [HitFor(lang, index, clause, alias)];
    assert t[..|t| - 1] == s;
  }

  lemma StreamNext(lang: Lang, index: Index, aliases: seq<string>, clauses: seq<string>, i: nat)
    requires i < |clauses| && forall a | a in aliases :: a in index
    ensures Stream(lang, index, aliases, clauses[..i + 1])
            == Stream(lang, index, aliases, clauses[..i]) + ClauseHits(lang, index, aliases, clauses[i])
  {
    assert clauses[..i + 1][..i] == clauses[..i];
  }

  method ExtractDishMentions(lang: Lang, index: Index, keys: seq<string>, text: string) returns (hits: seq<Hit>)
    requires Lists(keys, index)
    ensures hits == Extract(lang, index, keys, text)
    ensures OnePerDish(hits)
  {
    var clauses := lang.clauses(text);
    var aliases := Aliases(keys);
    SameElements(keys, aliases);
    hits := [];
    for i := 0 to |clauses|
      invariant hits == Best(Stream(lang, index, aliases, clauses[..i]))
    {
      StreamNext(lang, index, aliases, clauses, i);
      hits := CreditClause(lang, index, aliases, clauses[i], hits, Stream(lang, index, aliases, clauses[..i]));
    }
    assert clauses[..|clauses|] == clauses;
    BestOnePerDish(Stream(lang, index, aliases, clauses));
  }
}
