/** The filter every extraction passes through: nothing survives that the review text does not support. */
module Grounding {
  import opened Wrappers
  import opened ClauseSentiment
  import opened Extraction

  /** One mention in a provider's answer. */
  datatype Out = Out(
    name: string, alias: Option<string>, snippet: Option<string>, sentiment: real, confidence: real,
    attributes: seq<string>, price: Option<real>, recommended: Option<bool>, aspects: seq<string>)
  {
    function AliasText(): string { if alias.Some? then alias.value else "" }
  }

  datatype Request = Request(title: Option<string>, text: string, knownDishes: seq<string>, index: Index)
  {
    function Source(): string { (if title.Some? then title.value else "") + " " + text }
  }

  datatype Policy = Policy(minConfidence: real, allowCreation: bool)

  datatype Drop = LowConfidence(name: string) | UnknownDish(name: string) | NotInText(name: string)

  // ---- the rules ----

  predicate IsGrounded(lang: Lang, snippet: string, source: string) {
    var n, s := lang.normalize(snippet), lang.normalize(source);
    snippet != "" && n != "" && s != "" && (Contains(s, n) || lang.similar(n, s))
  }

  predicate KnownName(lang: Lang, req: Request, norm: string) {
    exists d | d in req.knownDishes :: lang.normalize(d) == norm
  }

  predicate KnownAlias(lang: Lang, req: Request, norm: string) {
    exists a | a in req.index :: lang.normalize(a) == norm
  }

  predicate InVocabulary(lang: Lang, req: Request, m: Out) {
    || KnownName(lang, req, lang.normalize(m.name))
    || KnownAlias(lang, req, lang.normalize(m.AliasText()))
    || KnownAlias(lang, req, lang.normalize(m.name))
  }

  predicate NamedInText(lang: Lang, req: Request, m: Out) {
    || IsGrounded(lang, m.name, req.Source())
    || (lang.normalize(m.AliasText()) != "" && IsGrounded(lang, m.AliasText(), req.Source()))
  }

  function Verdict(lang: Lang, policy: Policy, req: Request, m: Out): Option<Drop> {
    if m.confidence < policy.minConfidence then Some(LowConfidence(m.name))
    else if !InVocabulary(lang, req, m) && !(policy.allowCreation && m.confidence >= 0.8) then Some(UnknownDish(m.name))
    else if !NamedInText(lang, req, m) then Some(NotInText(m.name))
    else None
  }

  predicate SnippetSupported(lang: Lang, req: Request, m: Out) {
    m.snippet.Some? && m.snippet.value != "" ==> IsGrounded(lang, m.snippet.value, req.Source())
  }

  predicate PriceSupported(lang: Lang, req: Request, m: Out) {
    m.price.Some? ==> m.price.value in lang.prices(req.Source())
  }

  predicate AdviceAgrees(m: Out) {
    (m.recommended == Some(true) ==> m.sentiment >= 0.0) && (m.recommended == Some(false) ==> m.sentiment <= 0.3)
  }

  function Trim(lang: Lang, req: Request, m: Out): Out {
    m.(snippet := if SnippetSupported(lang, req, m) then m.snippet else None,
       price := if PriceSupported(lang, req, m) then m.price else None,
       recommended := if AdviceAgrees(m) then m.recommended else None)
  }

  function Grounded(lang: Lang, policy: Policy, req: Request, ms: seq<Out>): seq<Out> {
    if ms == [] then [] else
      var n := |ms| - 1;
      Grounded(lang, policy, req, ms[..n]) + (if Verdict(lang, policy, req, ms[n]).None? then [Trim(lang, req, ms[n])] else [])
  }

  method EnforceGrounding(lang: Lang, policy: Policy, req: Request, ms: seq<Out>) returns (kept: seq<Out>, dropped: seq<Drop>)
    ensures kept == Grounded(lang, policy, req, ms)
    ensures |kept| + |dropped| == |ms|
    ensures forall d | d in dropped :: exists m :: m in ms && Verdict(lang, policy, req, m) == Some(d)
  {
    kept, dropped := [], [];
    for i := 0 to |ms|
      invariant kept == Grounded(lang, policy, req, ms[..i])
      invariant |kept| + |dropped| == i
      invariant forall d | d in dropped :: exists m :: m in ms && Verdict(lang, policy, req, m) == Some(d)
    {
      var m := ms[i];
      assert ms[..i + 1][..i] == ms[..i];
      var verdict := Verdict(lang, policy, req, m);
      if verdict.Some? {
        assert m in ms;
        dropped := dropped + [verdict.value];
        continue;
      }
      var trimmed := m;
      if m.snippet.Some? && m.snippet.value != "" && !IsGrounded(lang, m.snippet.value, req.Source()) {
        trimmed := trimmed.(snippet := None);
      }
      if m.price.Some? && m.price.value !in lang.prices(req.Source()) {
        trimmed := trimmed.(price := None);
      }
      if m.recommended == Some(true) && m.sentiment < 0.0 {
        trimmed := trimmed.(recommended := None);
      }
      if m.recommended == Some(false) && m.sentiment > 0.3 {
        trimmed := trimmed.(recommended := None);
      }
      kept := kept + [trimmed];
    }
    assert ms[..|ms|] == ms;
  }

  // ---- what the filter guarantees ----

  ghost predicate Supported(lang: Lang, policy: Policy, req: Request, m: Out) {
    && m.confidence >= policy.minConfidence
    && (InVocabulary(lang, req, m) || (policy.allowCreation && m.confidence >= 0.8))
    && NamedInText(lang, req, m)
    && SnippetSupported(lang, req, m) && PriceSupported(lang, req, m) && AdviceAgrees(m)
  }

  lemma TrimFixes(lang: Lang, req: Request, m: Out)
    ensures var t := Trim(lang, req, m);
            && SnippetSupported(lang, req, t) && PriceSupported(lang, req, t) && AdviceAgrees(t)
            && Trim(lang, req, t) == t
  {
  }

  lemma VerdictIgnoresTrim(lang: Lang, policy: Policy, req: Request, m: Out)
    ensures Verdict(lang, policy, req, Trim(lang, req, m)) == Verdict(lang, policy, req, m)
  {
    var t := Trim(lang, req, m);
    assert t.name == m.name && t.AliasText() == m.AliasText() && t.confidence == m.confidence;
  }

  lemma TrimmedIsSupported(lang: Lang, policy: Policy, req: Request, m: Out)
    requires Verdict(lang, policy, req, m).None?
    ensures Supported(lang, policy, req, Trim(lang, req, m))
  {
    TrimFixes(lang, req, m);
    VerdictIgnoresTrim(lang, policy, req, m);
  }

  /** What survives is supported by the text. */
  lemma {:induction false} GroundedSound(lang: Lang, policy: Policy, req: Request, ms: seq<Out>)
    ensures forall i | 0 <= i < |Grounded(lang, policy, req, ms)| :: Supported(lang, policy, req, Grounded(lang, policy, req, ms)[i])
  {
    if ms != [] {
      var m := ms[|ms| - 1];
      GroundedSound(lang, policy, req, ms[..|ms| - 1]);
      if Verdict(lang, policy, req, m).None? { TrimmedIsSupported(lang, policy, req, m); }
    }
  }

  /** Filtering again changes nothing. */
  lemma {:induction false} GroundedIdempotent(lang: Lang, policy: Policy, req: Request, ms: seq<Out>)
    ensures Grounded(lang, policy, req, Grounded(lang, policy, req, ms)) == Grounded(lang, policy, req, ms)
  {
    if ms != [] {
      var m := ms[|ms| - 1];
      GroundedIdempotent(lang, policy, req, ms[..|ms| - 1]);
      if Verdict(lang, policy, req, m).None? {
        TrimFixes(lang, req, m);
        VerdictIgnoresTrim(lang, policy, req, m);
        var before, t := Grounded(lang, policy, req, ms[..|ms| - 1]), Trim(lang, req, m);
        GroundedAppend(lang, policy, req, before, t);
        assert Grounded(lang, policy, req, ms) == before + [t];
      } else {
        assert Grounded(lang, policy, req, ms) == Grounded(lang, policy, req, ms[..|ms| - 1]);
      }
    }
  }

  lemma GroundedAppend(lang: Lang, policy: Policy, req: Request, ms: seq<Out>, m: Out)
    ensures Grounded(lang, policy, req, ms + [m])
            == Grounded(lang, policy, req, ms) + (if Verdict(lang, policy, req, m).None? then [Trim(lang, req, m)] else [])
  {
    assert (ms + [m])[..|ms|] == ms;
  }

  /** Survivors are mentions of the input, in their order. */
  lemma {:induction false} GroundedOrigin(lang: Lang, policy: Policy, req: Request, ms: seq<Out>, i: nat, j: nat) returns (p: nat, q: nat)
    requires i <= j < |Grounded(lang, policy, req, ms)|
    ensures p <= q < |ms| && (i < j ==> p < q)
    ensures Grounded(lang, policy, req, ms)[i] == Trim(lang, req, ms[p]) && Verdict(lang, policy, req, ms[p]).None?
    ensures Grounded(lang, policy, req, ms)[j] == Trim(lang, req, ms[q]) && Verdict(lang, policy, req, ms[q]).None?
  {
    var n := |ms| - 1;
    var before := Grounded(lang, policy, req, ms[..n]);
    if j < |before| {
      p, q := GroundedOrigin(lang, policy, req, ms[..n], i, j);
    } else if i < j {
      p, q := GroundedOrigin(lang, policy, req, ms[..n], i, i);
      q := n;
    } else {
      p, q := n, n;
    }
  }

  /** Whatever passes every rule is kept. */
  lemma {:induction false} SupportedKept(lang: Lang, policy: Policy, req: Request, ms: seq<Out>, p: nat) returns (i: nat)
    requires p < |ms| && Verdict(lang, policy, req, ms[p]).None?
    ensures i < |Grounded(lang, policy, req, ms)| && Grounded(lang, policy, req, ms)[i] == Trim(lang, req, ms[p])
  {
    var n := |ms| - 1;
    if p < n {
      i := SupportedKept(lang, policy, req, ms[..n], p);
    } else {
      i := |Grounded(lang, policy, req, ms[..n])|;
    }
  }

  // ---- the provider that needs no model ----

  function Recommendation(sentiment: real): Option<bool> {
    if sentiment >= 0.5 then Some(true) else if sentiment <= -0.4 then Some(false) else None
  }

  function FromHit(h: Hit): Out {
    Out(h.alias, Some(h.alias), Some(h.clause), h.sentiment, h.confidence, h.attributes, h.price, Recommendation(h.sentiment), h.aspects)
  }

  function FromHits(hits: seq<Hit>): (r: seq<Out>)
    ensures |r| == |hits| && forall i | 0 <= i < |r| :: r[i] == FromHit(hits[i])
  {
    seq(|hits|, i requires 0 <= i < |hits| => FromHit(hits[i]))
  }

  function Analyze(lang: Lang, policy: Policy, req: Request, keys: seq<string>): seq<Out>
    requires Lists(keys, req.index)
  {
    Grounded(lang, policy, req, FromHits(Extract(lang, req.index, keys, req.text)))
  }

  method AnalyzeReview(lang: Lang, policy: Policy, req: Request, keys: seq<string>) returns (kept: seq<Out>)
    requires Lists(keys, req.index)
    ensures kept == Analyze(lang, policy, req, keys)
  {
    var hits := ExtractDishMentions(lang, req.index, keys, req.text);
    var ms: seq<Out> := [];
    for i := 0 to |hits|
      invariant ms == FromHits(hits[..i])
    {
      ms := ms + [FromHit(hits[i])];
    }
    assert hits[..|hits|] == hits;
    var dropped;
    kept, dropped := EnforceGrounding(lang, policy, req, ms);
  }

  /** The heuristic's own advice always agrees with its sentiment, so the filter keeps it. */
  lemma AdviceSurvives(lang: Lang, req: Request, h: Hit)
    ensures Trim(lang, req, FromHit(h)).recommended == Recommendation(h.sentiment)
  {
  }

  /** With the default floor, a clause with no word of the lexicon in it yields no mention. */
  lemma OnlyOpinionsSurvive(lang: Lang, req: Request, index: Index, clause: string, alias: string)
    requires alias in index
    requires Verdict(lang, Policy(0.35, false), req, FromHit(HitFor(lang, index, clause, alias))).None?
    ensures var norm := lang.normalize(clause);
            FixedPhrase(lang.lexicon.phrases, norm).Some? || Scores(lang.lexicon, lang.words(norm), |lang.words(norm)|) != []
  {
  }

  // ---- the rules, in the words of the texts ----

  /** The words stand in the text once both are normalised, or are close enough to it. */
  ghost predicate Said(lang: Lang, x: string, text: string) {
    var n, s := lang.normalize(x), lang.normalize(text);
    x != "" && n != "" && s != "" && ((exists i | 0 <= i <= |s| :: n <= s[i..]) || lang.similar(n, s))
  }

  lemma GroundedIffSaid(lang: Lang, x: string, text: string)
    ensures IsGrounded(lang, x, text) <==> Said(lang, x, text)
  {
    var n, s := lang.normalize(x), lang.normalize(text);
    if i :| 0 <= i <= |s| && n <= s[i..] { assert FoundAt(s, n, i); }
    if i: nat :| i <= |s| && FoundAt(s, n, i) { assert n <= s[i..]; }
  }

  /** Title and text, as one. */
  function Whole(req: Request): string { (match req.title case None => "" case Some(t) => t) + " " + req.text }

  /** The name or the alias is in the vocabulary: a known dish, or an alias of the index, by normal form. */
  ghost predicate Vocabulary(lang: Lang, req: Request, name: string, alias: string) {
    || (exists d | d in req.knownDishes :: lang.normalize(d) == lang.normalize(name))
    || (exists a | a in req.index :: lang.normalize(a) == lang.normalize(alias))
    || (exists a | a in req.index :: lang.normalize(a) == lang.normalize(name))
  }

  /**
   * What a mention needs to survive: confidence, a name from the vocabulary or the right to create one
   * at confidence 0.8, and that its name or its alias was said.
   */
  lemma SurvivesIff(lang: Lang, policy: Policy, req: Request, m: Out)
    ensures var alias := match m.alias case None => "" case Some(a) => a;
            Verdict(lang, policy, req, m).None?
            <==> && m.confidence >= policy.minConfidence
                 && (Vocabulary(lang, req, m.name, alias) || (policy.allowCreation && m.confidence >= 0.8))
                 && (Said(lang, m.name, Whole(req)) || (lang.normalize(alias) != "" && Said(lang, alias, Whole(req))))
  {
    GroundedIffSaid(lang, m.name, Whole(req));
    GroundedIffSaid(lang, m.AliasText(), Whole(req));
  }

  /** What a survivor keeps: a quotation that was said, a price that was named, and advice that fits its sentiment. */
  lemma KeepsWhatWasSaid(lang: Lang, req: Request, m: Out)
    ensures var t := Trim(lang, req, m);
            && t.snippet == (match m.snippet case None => None case Some(s) => if s == "" || Said(lang, s, Whole(req)) then Some(s) else None)
            && t.price == (match m.price case None => None case Some(p) => if p in lang.prices(Whole(req)) then Some(p) else None)
            && t.recommended == (match m.recommended
                                 case None => None
                                 case Some(yes) => if (if yes then m.sentiment < 0.0 else m.sentiment > 0.3) then None else Some(yes))
            && t == m.(snippet := t.snippet, price := t.price, recommended := t.recommended)
  {
    if m.snippet.Some? { GroundedIffSaid(lang, m.snippet.value, Whole(req)); }
  }

  /** A hit is put forward under its alias, with its own words; advice is given from 0.5 up and from -0.4 down. */
  lemma PutForward(h: Hit)
    ensures var m := FromHit(h);
            && m.name == h.alias && m.alias == Some(h.alias) && m.snippet == Some(h.clause) && m.sentiment == h.sentiment
            && m.confidence == h.confidence && m.attributes == h.attributes && m.price == h.price && m.aspects == h.aspects
            && (m.recommended == Some(true) <==> h.sentiment >= 0.5) && (m.recommended == Some(false) <==> h.sentiment <= -0.4)
  {
  }
}
