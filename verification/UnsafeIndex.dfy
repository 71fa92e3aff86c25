/**
 * The other half of the uniqueness of mentions: whenever two aliases that lead different normal
 * forms stand for different dishes but are looked up as one, a review that mentions both in one
 * clause breaks UNIQUE(review, dish).
 */
module UnsafeIndex {
  import opened Wrappers
  import opened Sorting
  import opened ClauseSentiment
  import opened Extraction
  import opened Grounding
  import opened MentionRows

  // ---- a search by words ----

  predicate IsWord(c: char) { 'a' <= c <= 'z' || '0' <= c <= '9' }

  /** `n` stands at `i` in the clause, and no word runs into it on either side. */
  predicate MatchAt(clause: string, n: string, i: nat) {
    && i + |n| <= |clause| && clause[i..i + |n|] == n
    && (i == 0 || !IsWord(clause[i - 1]))
    && (i + |n| == |clause| || !IsWord(clause[i + |n|]))
  }

  /** The first match from `i` on. */
  function FirstFrom(clause: string, n: string, i: nat): (r: Option<Span>)
    ensures r.Some? ==> i <= r.value.from && r.value.to == r.value.from + |n| && MatchAt(clause, n, r.value.from)
    ensures forall j: nat | i <= j && MatchAt(clause, n, j) :: r.Some? && r.value.from <= j
    decreases |clause| + 1 - i
  {
    if i > |clause| then None
    else if MatchAt(clause, n, i) then Some(Span(i, i + |n|))
    else FirstFrom(clause, n, i + 1)
  }

  // ---- a sentence that mentions two names ----

  const Opinion: string := "never again"

  /** A conjunction with which the longer name does not begin after the shorter. */
  function Conjunction(x: string, y: string): string {
    if |y| > |x| + 1 && y[|x| + 1] == 'o' then " and " else " or "
  }

  function Mentioning(x: string, y: string): string { x + Conjunction(x, y) + y + " " + Opinion }

  /** The shorter name comes first, so that the longer cannot hide it. */
  function Sentence(x: string, y: string): string {
    if |x| <= |y| then Mentioning(x, y) else Mentioning(y, x)
  }

  ghost predicate Trimmed(n: string) { n != "" && n[|n| - 1] != ' ' }

  ghost predicate FoundApart(clause: string, x: string, y: string) {
    var p, q := FirstFrom(clause, x, 0), FirstFrom(clause, y, 0);
    p.Some? && q.Some? && !Inside(p.value, q.value) && !Inside(q.value, p.value)
  }

  lemma LongerNotInFront(x: string, y: string)
    requires Trimmed(y) && |x| <= |y| && x != y
    ensures !MatchAt(Mentioning(x, y), y, 0)
  {
    var t := Mentioning(x, y);
    var front := t[0..|y|];
    if |y| == |x| {
      assert front == x;
    } else {
      assert front[|x|] == t[|x|] == ' ';
      if |y| == |x| + 1 {
        assert front[|y| - 1] == ' ';
      } else {
        assert front[|x| + 1] == t[|x| + 1] == Conjunction(x, y)[1];
      }
    }
  }

  lemma BothMatch(x: string, y: string)
    requires x != ""
    ensures MatchAt(Mentioning(x, y), x, 0)
    ensures MatchAt(Mentioning(x, y), y, |x| + |Conjunction(x, y)|)
  {
    var t, c := Mentioning(x, y), Conjunction(x, y);
    assert t[0..|x|] == x && t[|x|] == ' ';
    var j := |x| + |c|;
    assert t[j..j + |y|] == y && t[j - 1] == ' ' && t[j + |y|] == ' ';
  }

  lemma FoundInOrder(x: string, y: string)
    requires Trimmed(x) && Trimmed(y) && |x| <= |y| && x != y
    ensures FoundApart(Mentioning(x, y), x, y)
  {
    BothMatch(x, y);
    LongerNotInFront(x, y);
    var q := FirstFrom(Mentioning(x, y), y, 0);
    assert q.value.from > 0;
  }

  lemma SentenceMentionsBoth(x: string, y: string)
    requires Trimmed(x) && Trimmed(y) && x != y
    ensures FoundApart(Sentence(x, y), x, y)
  {
    if |x| <= |y| { FoundInOrder(x, y); } else { FoundInOrder(y, x); }
  }

  /** What is used of normalisation: it trims, and it leaves sentences of normal forms alone. */
  ghost predicate Ordinary(normalize: string -> string, index: Index) {
    && (forall s :: normalize(" " + s) == normalize(s))
    && (forall a | a in index :: normalize(a) == "" || Trimmed(normalize(a)))
    && (forall a, b | a in index && b in index :: Settles(normalize, normalize(a), normalize(b)))
  }

  ghost predicate Settles(normalize: string -> string, x: string, y: string) {
    normalize(Sentence(x, y)) == Sentence(x, y)
  }

  // ---- the sentence is extracted ----

  /** What finds a normal form in a clause. */
  type Search = (string, string) -> Option<Span>

  /** A search that finds the two names where they stand, and nothing else. */
  function OnlyNames(x: string, y: string): Search {
    (n: string, clause: string) => if n == x || n == y then FirstFrom(clause, n, 0) else None
  }

  /** A search that finds every form by its whole words. */
  function ByWords(): Search { (n: string, clause: string) => FirstFrom(clause, n, 0) }

  /** A language in which a text is one clause. */
  function LangFor(normalize: string -> string, search: Search): Lang {
    Lang(Lexicon(map[], map[], {}, map[], [(Opinion, -0.9)]), normalize,
         (s: string) => [], (t: string) => [t], search,
         (s: string) => [], (s: string) => [], (s: string) => [],
         (s: string, t: string) => false, (s: string) => s, (s: string) => s)
  }

  function TextFor(normalize: string -> string, a: string, b: string): string { Sentence(normalize(a), normalize(b)) }

  /**
   * The search finds both names in the sentence, and what else it finds there neither covers one of
   * them nor stands for one of the two dishes.
   */
  ghost predicate Isolates(normalize: string -> string, index: Index, search: Search, a: string, b: string)
    requires a in index && b in index
  {
    var t := TextFor(normalize, a, b);
    && search(normalize(a), t) == FirstFrom(t, normalize(a), 0) && search(normalize(b), t) == FirstFrom(t, normalize(b), 0)
    && forall c | Leader(normalize, index, c) && c != a && c != b && normalize(c) != "" && search(normalize(c), t).Some? ::
         && index[c] != index[a] && index[c] != index[b]
         && Apart(t, normalize(a), search(normalize(c), t).value) && Apart(t, normalize(b), search(normalize(c), t).value)
  }

  /** The span does not cover the first place of the name. */
  predicate Apart(t: string, name: string, span: Span) {
    FirstFrom(t, name, 0).Some? ==> !Inside(FirstFrom(t, name, 0).value, span)
  }

  /** The two aliases clash in an index of ordinary names, and the search isolates them. */
  ghost predicate Clashing(normalize: string -> string, index: Index, search: Search, a: string, b: string) {
    && Clash(normalize, index, a, b) && Ordinary(normalize, index) && Sound(index, index.Values)
    && Isolates(normalize, index, search, a, b)
  }

  lemma ClashSymmetric(normalize: string -> string, index: Index, search: Search, a: string, b: string)
    requires Clashing(normalize, index, search, a, b)
    ensures Trimmed(normalize(a)) && Trimmed(normalize(b)) && FoundApart(TextFor(normalize, a, b), normalize(a), normalize(b))
    ensures normalize(TextFor(normalize, a, b)) == TextFor(normalize, a, b)
  {
    SentenceMentionsBoth(normalize(a), normalize(b));
    assert Settles(normalize, normalize(a), normalize(b));
  }

  /** No other alias that is found there takes the span of a clashing one. */
  lemma NotTaken(normalize: string -> string, index: Index, search: Search, a: string, b: string, x: string, c: string)
    requires Clashing(normalize, index, search, a, b) && (x == a || x == b) && c != x && Leader(normalize, index, c)
    ensures var lang, t := LangFor(normalize, search), TextFor(normalize, a, b);
            && lang.Find(x, t).Some?
            && (lang.Find(c, t).Some? ==> !Inside(lang.Find(x, t).value, lang.Find(c, t).value))
  {
    ClashSymmetric(normalize, index, search, a, b);
    assert Apart(TextFor(normalize, a, b), normalize(x), FirstFrom(TextFor(normalize, a, b), normalize(if x == a then b else a), 0).value);
  }

  lemma OneCredited(normalize: string -> string, index: Index, keys: seq<string>, search: Search, a: string, b: string, x: string)
    requires Extraction.Lists(keys, index) && Clashing(normalize, index, search, a, b) && (x == a || x == b)
    ensures x in Credited(LangFor(normalize, search), TextFor(normalize, a, b), Aliases(keys), [])
  {
    var lang, t, aliases := LangFor(normalize, search), TextFor(normalize, a, b), Aliases(keys);
    SortedAliases(keys);
    SameElements(keys, aliases);
    assert x in aliases;
    NotTaken(normalize, index, search, a, b, x, if x == a then b else a);
    forall c | c in Credited(lang, t, aliases, []) && c != x && lang.Find(c, t).Some?
      ensures !Inside(lang.Find(x, t).value, lang.Find(c, t).value)
    {
      CreditedAreLeaders(lang, t, index, keys, c);
      NotTaken(normalize, index, search, a, b, x, c);
    }
    CreditedIfNotTaken(lang, t, aliases, x);
  }

  lemma OtherDish(normalize: string -> string, index: Index, keys: seq<string>, search: Search, a: string, b: string, c: string)
    requires Extraction.Lists(keys, index) && Clashing(normalize, index, search, a, b)
    requires c in Credited(LangFor(normalize, search), TextFor(normalize, a, b), Aliases(keys), [])
    ensures c in index && (c == a || c == b || (index[c] != index[a] && index[c] != index[b]))
  {
    var lang, t := LangFor(normalize, search), TextFor(normalize, a, b);
    CreditedAreAliases(lang, t, Aliases(keys), []);
    CreditedAreLeaders(lang, t, index, keys, c);
  }

  /** The sentence credits the two aliases and no other of their dishes. */
  lemma BothCredited(normalize: string -> string, index: Index, keys: seq<string>, search: Search, a: string, b: string)
    requires Extraction.Lists(keys, index) && Clashing(normalize, index, search, a, b)
    ensures var credited := Credited(LangFor(normalize, search), TextFor(normalize, a, b), Aliases(keys), []);
            && a in credited && b in credited
            && forall c | c in credited :: c in index && (c == a || c == b || (index[c] != index[a] && index[c] != index[b]))
  {
    OneCredited(normalize, index, keys, search, a, b, a);
    OneCredited(normalize, index, keys, search, a, b, b);
    forall c | c in Credited(LangFor(normalize, search), TextFor(normalize, a, b), Aliases(keys), [])
      ensures c in index && (c == a || c == b || (index[c] != index[a] && index[c] != index[b]))
    {
      OtherDish(normalize, index, keys, search, a, b, c);
    }
  }

  lemma OpinionFound(normalize: string -> string, search: Search, a: string, b: string)
    requires normalize(TextFor(normalize, a, b)) == TextFor(normalize, a, b)
    ensures LangFor(normalize, search).Score(TextFor(normalize, a, b)) == (-0.9, 0.7)
  {
    EndsInOpinion(normalize(a), normalize(b));
  }

  lemma EndsInOpinion(x: string, y: string)
    ensures Contains(Sentence(x, y), Opinion)
  {
    var p, q := if |x| <= |y| then x else y, if |x| <= |y| then y else x;
    var u := p + Conjunction(p, q) + q + " ";
    assert Sentence(x, y) == u + Opinion;
    assert (u + Opinion)[|u|..|u| + |Opinion|] == Opinion;
    assert FoundAt(u + Opinion, Opinion, |u|);
  }

  /** The hits of the sentence are those of its one clause. */
  lemma OneClause(normalize: string -> string, index: Index, aliases: seq<string>, search: Search, a: string, b: string)
    requires (forall c | c in aliases :: c in index) && TextFor(normalize, a, b) != ""
    requires normalize(TextFor(normalize, a, b)) == TextFor(normalize, a, b)
    ensures var lang, t := LangFor(normalize, search), TextFor(normalize, a, b);
            var credited := Credited(lang, t, aliases, []);
            && (forall c | c in credited :: c in index)
            && Stream(lang, index, aliases, lang.clauses(t)) == HitsFor(lang, index, t, credited)
  {
    var lang, t := LangFor(normalize, search), TextFor(normalize, a, b);
    CreditedAreAliases(lang, t, aliases, []);
    assert lang.clauses(t) == [t] && [t][..0] == [];
    assert Stream(lang, index, aliases, [t]) == Stream(lang, index, aliases, []) + ClauseHits(lang, index, aliases, t);
  }

  /** The hits for one dish, when no other alias of it was credited, lead to that alias. */
  lemma OnlyAlias(lang: Lang, index: Index, clause: string, credited: seq<string>, x: string) returns (p: nat)
    requires (forall c | c in credited :: c in index) && x in credited
    requires forall c | c in credited :: c == x || index[c] != index[x]
    ensures var best := Best(HitsFor(lang, index, clause, credited));
            p < |best| && best[p] == HitFor(lang, index, clause, x)
  {
    var stream := HitsFor(lang, index, clause, credited);
    var i :| 0 <= i < |credited| && credited[i] == x;
    assert stream[i].dish == index[x];
    BestLeads(stream, index[x]);
    LookupIff(Best(stream), index[x]);
    var k: nat :| Leads(stream, index[x], k) && Lookup(Best(stream), index[x]) == Some(stream[k]);
    assert credited[k] in credited && credited[k] == x;
    p :| 0 <= p < |Best(stream)| && Best(stream)[p] == stream[k];
  }

  /** The extractor keeps one hit for either dish. */
  lemma BothHit(normalize: string -> string, index: Index, keys: seq<string>, search: Search, a: string, b: string, x: string) returns (p: nat)
    requires Extraction.Lists(keys, index) && Clashing(normalize, index, search, a, b) && (x == a || x == b)
    ensures var hits := Extract(LangFor(normalize, search), index, keys, TextFor(normalize, a, b));
            p < |hits| && hits[p].alias == x && hits[p].confidence == 0.7
  {
    var lang, t := LangFor(normalize, search), TextFor(normalize, a, b);
    SameElements(keys, Aliases(keys));
    ClashSymmetric(normalize, index, search, a, b);
    BothCredited(normalize, index, keys, search, a, b);
    OneClause(normalize, index, Aliases(keys), search, a, b);
    OpinionFound(normalize, search, a, b);
    p := OnlyAlias(lang, index, t, Credited(lang, t, Aliases(keys), []), x);
  }

  function RequestFor(normalize: string -> string, index: Index, a: string, b: string): Request {
    Request(None, TextFor(normalize, a, b), [], index)
  }

  /** The names of both aliases stand in the review. */
  lemma NameInText(normalize: string -> string, index: Index, search: Search, a: string, b: string, x: string)
    requires Clashing(normalize, index, search, a, b) && (x == a || x == b)
    ensures IsGrounded(LangFor(normalize, search), x, RequestFor(normalize, index, a, b).Source())
  {
    var source, t := RequestFor(normalize, index, a, b).Source(), TextFor(normalize, a, b);
    ClashSymmetric(normalize, index, search, a, b);
    assert source == " " + t;
    assert normalize(" " + t) == t;
    FoundIsGrounded(LangFor(normalize, search), x, source);
  }

  lemma FoundIsGrounded(lang: Lang, x: string, source: string)
    requires x != "" && lang.normalize(x) != "" && FirstFrom(lang.normalize(source), lang.normalize(x), 0).Some?
    ensures IsGrounded(lang, x, source)
  {
    FoundIsContained(lang.normalize(source), lang.normalize(x));
  }

  lemma FoundIsContained(t: string, n: string)
    requires n != "" && FirstFrom(t, n, 0).Some?
    ensures t != "" && Contains(t, n)
  {
    var p := FirstFrom(t, n, 0).value.from;
    assert MatchAt(t, n, p);
    assert FoundAt(t, n, p);
  }

  lemma HitPasses(normalize: string -> string, index: Index, search: Search, a: string, b: string, h: Hit)
    requires Clashing(normalize, index, search, a, b) && h.confidence == 0.7 && (h.alias == a || h.alias == b)
    ensures Verdict(LangFor(normalize, search), Policy(0.35, false), RequestFor(normalize, index, a, b), FromHit(h)).None?
  {
    var lang, req := LangFor(normalize, search), RequestFor(normalize, index, a, b);
    assert h.alias in req.index && lang.normalize(h.alias) == normalize(h.alias);
    assert KnownAlias(lang, req, normalize(h.alias));
    NameInText(normalize, index, search, a, b, h.alias);
  }

  lemma {:induction false} ResolvedKept(lang: Lang, slugs: set<string>, index: Index, ms: seq<Out>, i: nat) returns (r: nat)
    requires i < |ms| && LookupSlug(lang, slugs, index, ms[i].name).Some? && ms[i].alias == Some(ms[i].name)
    ensures var rows := ResolveAll(lang, slugs, index, false, ms).0;
            r < |rows| && rows[r] == Resolved(LookupSlug(lang, slugs, index, ms[i].name).value, ms[i])
  {
    var n := |ms| - 1;
    NothingAdded(lang, slugs, index, false, ms[..n]);
    if i < n {
      r := ResolvedKept(lang, slugs, index, ms[..n], i);
    } else {
      r := |ResolveAll(lang, slugs, index, false, ms[..n]).0|;
    }
  }

  /** A clash in the index, isolated by the search, is a review text whose analysis cannot be inserted. */
  lemma {:induction false} IsolatedClashBreaks(normalize: string -> string, index: Index, keys: seq<string>, slugs: set<string>, search: Search, a: string, b: string)
    requires Extraction.Lists(keys, index) && Sound(index, slugs) && Clashing(normalize, index, search, a, b)
    ensures !DistinctDishes(ResolveAll(LangFor(normalize, search), slugs, index, false,
                                       Analyze(LangFor(normalize, search), Policy(0.35, false), RequestFor(normalize, index, a, b), keys)).0)
  {
    var lang, policy, req := LangFor(normalize, search), Policy(0.35, false), RequestFor(normalize, index, a, b);
    var hits := Extract(lang, index, keys, req.text);
    var ms := Analyze(lang, policy, req, keys);
    var p := BothHit(normalize, index, keys, search, a, b, a);
    var q := BothHit(normalize, index, keys, search, a, b, b);
    HitPasses(normalize, index, search, a, b, hits[p]);
    HitPasses(normalize, index, search, a, b, hits[q]);
    var i := SupportedKept(lang, policy, req, FromHits(hits), p);
    var j := SupportedKept(lang, policy, req, FromHits(hits), q);
    assert ms[i].name == a && ms[j].name == b;
    assert LookupSlug(lang, slugs, index, a) == Some(index[normalize(a)]) == LookupSlug(lang, slugs, index, b);
    var r := ResolvedKept(lang, slugs, index, ms, i);
    var s := ResolvedKept(lang, slugs, index, ms, j);
    assert r != s;
  }

  /** For every clash there is a search in whose language that text cannot be inserted. */
  lemma {:induction false} ClashBreaks(normalize: string -> string, index: Index, keys: seq<string>, slugs: set<string>, a: string, b: string)
    requires Extraction.Lists(keys, index) && Sound(index, slugs) && Clash(normalize, index, a, b) && Ordinary(normalize, index)
    ensures var lang := LangFor(normalize, OnlyNames(normalize(a), normalize(b)));
            !DistinctDishes(ResolveAll(lang, slugs, index, false, Analyze(lang, Policy(0.35, false), RequestFor(normalize, index, a, b), keys)).0)
  {
    forall c | Leader(normalize, index, c) && c != a && c != b ensures normalize(c) != normalize(a) && normalize(c) != normalize(b) {
      if normalize(c) == normalize(a) { OneLeader(normalize, index, c, a); }
      if normalize(c) == normalize(b) { OneLeader(normalize, index, c, b); }
    }
    IsolatedClashBreaks(normalize, index, keys, slugs, OnlyNames(normalize(a), normalize(b)), a, b);
  }

  /**
   * A search of whole words finds every alias that the sentence names, and the text still cannot be
   * inserted, unless another alias found there covers one of the two names or stands for one of the two dishes.
   */
  lemma {:induction false} ClashBreaksByWords(normalize: string -> string, index: Index, keys: seq<string>, slugs: set<string>, a: string, b: string)
    requires Extraction.Lists(keys, index) && Sound(index, slugs) && Clash(normalize, index, a, b) && Ordinary(normalize, index)
    requires forall c | Leader(normalize, index, c) && c != a && c != b && normalize(c) != "" ::
               var t, found := TextFor(normalize, a, b), FirstFrom(TextFor(normalize, a, b), normalize(c), 0);
               found.Some? ==> index[c] != index[a] && index[c] != index[b]
                               && Apart(t, normalize(a), found.value) && Apart(t, normalize(b), found.value)
    ensures !DistinctDishes(ResolveAll(LangFor(normalize, ByWords()), slugs, index, false,
                                       Analyze(LangFor(normalize, ByWords()), Policy(0.35, false), RequestFor(normalize, index, a, b), keys)).0)
  {
    IsolatedClashBreaks(normalize, index, keys, slugs, ByWords(), a, b);
  }

  /** Every text, in every language with this normalisation, yields at most one mention a dish. */
  ghost predicate AlwaysInserts(normalize: string -> string, index: Index, keys: seq<string>, slugs: set<string>)
    requires Extraction.Lists(keys, index)
  {
    forall lang: Lang, req: Request | lang.normalize == normalize && req.index == index ::
      DistinctDishes(ResolveAll(lang, slugs, index, false, Analyze(lang, Policy(0.35, false), req, keys)).0)
  }

  /** With creation off, reviews can always be persisted exactly when the index has no clash. */
  lemma AlwaysInsertsIff(normalize: string -> string, index: Index, keys: seq<string>, slugs: set<string>)
    requires Extraction.Lists(keys, index) && Sound(index, slugs) && Ordinary(normalize, index)
    ensures AlwaysInserts(normalize, index, keys, slugs) <==> KeysSafe(normalize, index)
  {
    if KeysSafe(normalize, index) {
      forall lang: Lang, req: Request | lang.normalize == normalize && req.index == index
        ensures DistinctDishes(ResolveAll(lang, slugs, index, false, Analyze(lang, Policy(0.35, false), req, keys)).0)
      {
        InsertsOncePerDish(lang, Policy(0.35, false), req, keys, slugs);
      }
    } else {
      var a, b :| Clash(normalize, index, a, b);
      ClashBreaks(normalize, index, keys, slugs, a, b);
    }
  }

  /**
   * Two aliases that share a normal form never clash, whatever dishes they stand for: the longer one
   * takes the span of the other. An index of such a pair is safe.
   */
  lemma SharedFormIsSafe(normalize: string -> string, long: string, short: string, d: string, e: string)
    requires |long| > |short| && normalize(long) == short && normalize(short) == short
    ensures KeysSafe(normalize, map[long := d, short := e])
  {
  }
}
