/** Matching an incoming place to a known restaurant, in tiers, with the right to refuse. */
module Resolver {
  import opened Wrappers
  import opened Stats
  import opened Sorting

  type Id = nat   // UUIDs, in the order of their text

  /** A location; distances between locations come from the environment. */
  type Point = (real, real)

  datatype Env = Env(
    normalize: string -> string, similarity: (string, string) -> real, distance: (Point, Point) -> real)
  {
    ghost predicate Valid() { forall a, b :: 0.0 <= similarity(a, b) <= 1.0 }
  }

  type SourceKey = (string, string)

  datatype Candidate = Candidate(id: Id, normalizedName: string, at: Point, aliases: seq<string>, sourceKeys: seq<SourceKey>)

  datatype Incoming = Incoming(name: string, at: Option<Point>, source: string, externalId: string)

  datatype Tier = ExactName | Alias | FuzzyGeo | FuzzyStrict

  datatype Method = SourceKeyMatch | Tiered(tier: Tier) | New | Ambiguous

  datatype Resolution = Resolution(
    matched: Option<Id>, via: Method, confidence: real, similarity: real, distance: Option<real>,
    runnerUp: Option<Id>, isAmbiguous: bool)

  const ExactDistance: real := 250.0
  const ChainDistance: real := 1000.0
  const Strong: real := 0.92
  const Moderate: real := 0.82
  const Margin: real := 0.05

  // ---- scoring one candidate ----

  datatype Row = Row(confidence: real, tier: Tier, candidate: Candidate, similarity: real, distance: Option<real>)

  function Distance(env: Env, incoming: Incoming, c: Candidate): Option<real> {
    match incoming.at case None => None case Some(p) => Some(env.distance(p, c.at))
  }

  /** Without coordinates the gate fails closed. */
  predicate Within(distance: Option<real>, limit: real) { distance.Some? && distance.value <= limit }

  predicate AliasHit(env: Env, c: Candidate, norm: string) {
    exists i | 0 <= i < |c.aliases| :: env.normalize(c.aliases[i]) == norm
  }

  function RowFor(env: Env, incoming: Incoming, norm: string, c: Candidate): Option<Row> {
    var d, s := Distance(env, incoming, c), env.similarity(norm, c.normalizedName);
    if c.normalizedName == norm && Within(d, ExactDistance) then Some(Row(0.95, ExactName, c, 1.0, d))
    else if AliasHit(env, c, norm) && Within(d, ChainDistance) then Some(Row(0.90, Alias, c, 1.0, d))
    else if s >= Moderate && Within(d, ExactDistance) then Some(Row(0.60 + 0.4 * s, FuzzyGeo, c, s, d))
    else if s >= Strong && Within(d, ChainDistance) then Some(Row(0.55 + 0.3 * s, FuzzyStrict, c, s, d))
    else if d.None? && s >= Strong then Some(Row(0.55 + 0.3 * s, FuzzyStrict, c, s, None))
    else None
  }

  function Rows(env: Env, incoming: Incoming, norm: string, cs: seq<Candidate>): seq<Row> {
    if cs == [] then [] else
      (match RowFor(env, incoming, norm, cs[0]) case None => [] case Some(r) => [r]) + Rows(env, incoming, norm, cs[1..])
  }

  predicate Before(a: Row, b: Row) {
    a.confidence > b.confidence || (a.confidence == b.confidence && a.candidate.id < b.candidate.id)
  }

  function ByRank(): (Row, Row) -> bool { (a: Row, b: Row) => Before(a, b) }

  // ---- the resolution ----

  function KeyOwner(cs: seq<Candidate>, key: SourceKey): Option<Candidate> {
    if cs == [] then None else if key in cs[0].sourceKeys then Some(cs[0]) else KeyOwner(cs[1..], key)
  }

  function OwnerOf(incoming: Incoming, cs: seq<Candidate>): Option<Candidate> {
    if incoming.source != "" && incoming.externalId != "" then KeyOwner(cs, (incoming.source, incoming.externalId)) else None
  }

  predicate Inseparable(a: Row, b: Row) {
    a.tier == b.tier && a.confidence - b.confidence <= Margin && b.confidence - a.confidence <= Margin
  }

  function Decide(rows: seq<Row>): Resolution {
    if rows == [] then Resolution(None, New, 0.30, 0.0, None, None, false) else
      var best := rows[0];
      var runnerUp := if |rows| > 1 then Some(rows[1].candidate.id) else None;
      if |rows| > 1 && Inseparable(best, rows[1])
      then Resolution(None, Ambiguous, best.confidence, best.similarity, best.distance, runnerUp, true)
      else Resolution(Some(best.candidate.id), Tiered(best.tier), if best.confidence <= 1.0 then best.confidence else 1.0,
                      best.similarity, best.distance, runnerUp, false)
  }

  function Resolve(env: Env, incoming: Incoming, cs: seq<Candidate>): Resolution {
    match OwnerOf(incoming, cs)
    case Some(c) => Resolution(Some(c.id), SourceKeyMatch, 1.0, 1.0, Distance(env, incoming, c), None, false)
    case None =>
      var norm := env.normalize(incoming.name);
      if norm == "" then Resolution(None, New, 0.0, 0.0, None, None, false)
      else Decide(Sort(ByRank(), Rows(env, incoming, norm, cs)))
  }

  method ResolveCandidate(env: Env, incoming: Incoming, cs: seq<Candidate>) returns (r: Resolution)
    ensures r == Resolve(env, incoming, cs)
  {
    if incoming.source != "" && incoming.externalId != "" {
      var key := (incoming.source, incoming.externalId);
      for i := 0 to |cs|
        invariant KeyOwner(cs, key) == KeyOwner(cs[i..], key)
      {
        if key in cs[i].sourceKeys {
          return Resolution(Some(cs[i].id), SourceKeyMatch, 1.0, 1.0, Distance(env, incoming, cs[i]), None, false);
        }
      }
    }
    var norm := env.normalize(incoming.name);
    if norm == "" {
      return Resolution(None, New, 0.0, 0.0, None, None, false);
    }
    var scored := ScoreAll(env, incoming, norm, cs);
    r := Decide(Sort(ByRank(), scored));
  }

  method ScoreAll(env: Env, incoming: Incoming, norm: string, cs: seq<Candidate>) returns (scored: seq<Row>)
    ensures scored == Rows(env, incoming, norm, cs)
  {
    scored := [];
    for i := 0 to |cs|
      invariant scored == Rows(env, incoming, norm, cs[..i])
    {
      var c := cs[i];
      assert cs[..i + 1] == cs[..i] + [c];
      RowsAppend(env, incoming, norm, cs[..i], [c]);
      RowsOne(env, incoming, norm, c);
      var row := ScoreOne(env, incoming, norm, c);
      if row.Some? {
        scored := scored + [row.value];
      }
    }
    assert cs[..|cs|] == cs;
  }

  method ScoreOne(env: Env, incoming: Incoming, norm: string, c: Candidate) returns (row: Option<Row>)
    ensures row == RowFor(env, incoming, norm, c)
  {
    var distance, similarity := Distance(env, incoming, c), env.similarity(norm, c.normalizedName);
    if c.normalizedName == norm && Within(distance, ExactDistance) {
      return Some(Row(0.95, ExactName, c, 1.0, distance));
    }
    if AliasHit(env, c, norm) && Within(distance, ChainDistance) {
      return Some(Row(0.90, Alias, c, 1.0, distance));
    }
    if similarity >= Moderate && Within(distance, ExactDistance) {
      return Some(Row(0.60 + 0.4 * similarity, FuzzyGeo, c, similarity, distance));
    }
    if similarity >= Strong && Within(distance, ChainDistance) {
      return Some(Row(0.55 + 0.3 * similarity, FuzzyStrict, c, similarity, distance));
    }
    if distance.None? && similarity >= Strong {
      return Some(Row(0.55 + 0.3 * similarity, FuzzyStrict, c, similarity, None));
    }
    return None;
  }

  lemma RowsOne(env: Env, incoming: Incoming, norm: string, c: Candidate)
    ensures Rows(env, incoming, norm, [c]) == match RowFor(env, incoming, norm, c) case None => [] case Some(r) => [r]
  {
    assert [c][1..] == [];
  }

  // ---- rows and candidates ----

  lemma {:induction false} RowsAre(env: Env, incoming: Incoming, norm: string, cs: seq<Candidate>)
    ensures forall r :: r in Rows(env, incoming, norm, cs) <==> r.candidate in cs && RowFor(env, incoming, norm, r.candidate) == Some(r)
  {
    if cs != [] {
      RowsAre(env, incoming, norm, cs[1..]);
      assert cs == [cs[0]] + cs[1..];
    }
  }

  lemma {:induction false} RowsAppend(env: Env, incoming: Incoming, norm: string, s: seq<Candidate>, t: seq<Candidate>)
    ensures Rows(env, incoming, norm, s + t) == Rows(env, incoming, norm, s) + Rows(env, incoming, norm, t)
  {
    if s == [] {
      assert s + t == t;
    } else {
      assert (s + t)[1..] == s[1..] + t;
      RowsAppend(env, incoming, norm, s[1..], t);
    }
  }

  lemma RowsWithout(env: Env, incoming: Incoming, norm: string, t: seq<Candidate>, i: nat)
    requires i < |t|
    ensures multiset(Rows(env, incoming, norm, t))
            == multiset(Rows(env, incoming, norm, [t[i]])) + multiset(Rows(env, incoming, norm, t[..i] + t[i + 1..]))
  {
    var a, c, b := t[..i], [t[i]], t[i + 1..];
    assert t == a + (c + b);
    RowsAppend(env, incoming, norm, a, c + b);
    RowsAppend(env, incoming, norm, c, b);
    RowsAppend(env, incoming, norm, a, b);
  }

  lemma {:induction false} RowsPermutation(env: Env, incoming: Incoming, norm: string, s: seq<Candidate>, t: seq<Candidate>)
    requires multiset(s) == multiset(t)
    ensures multiset(Rows(env, incoming, norm, s)) == multiset(Rows(env, incoming, norm, t))
  {
    if s == [] {
      assert |multiset(t)| == |t|;
    } else {
      assert s[0] in multiset(t);
      var i :| 0 <= i < |t| && t[i] == s[0];
      RemoveAt(s, t, i);
      RowsPermutation(env, incoming, norm, s[1..], t[..i] + t[i + 1..]);
      RowsWithout(env, incoming, norm, t, i);
      RowsAppend(env, incoming, norm, [s[0]], s[1..]);
      assert s == [s[0]] + s[1..];
    }
  }

  ghost predicate DistinctIds(cs: seq<Candidate>) {
    forall i, j | 0 <= i < j < |cs| :: cs[i].id != cs[j].id
  }

  /** No two restaurants carry the same source key. */
  ghost predicate UniqueKeys(cs: seq<Candidate>) {
    forall c, d, k | c in cs && d in cs && k in c.sourceKeys && k in d.sourceKeys :: c == d
  }

  lemma SameIdSame(cs: seq<Candidate>, c: Candidate, d: Candidate)
    requires DistinctIds(cs) && c in cs && d in cs && c.id == d.id
    ensures c == d
  {
  }

  lemma {:induction false} RowsDistinct(env: Env, incoming: Incoming, norm: string, cs: seq<Candidate>)
    requires DistinctIds(cs)
    ensures Distinct(Rows(env, incoming, norm, cs))
  {
    if cs != [] {
      RowsDistinct(env, incoming, norm, cs[1..]);
      RowsAre(env, incoming, norm, cs[1..]);
      assert forall c | c in cs[1..] :: c.id != cs[0].id;
    }
  }

  lemma RankIsOrder(env: Env, incoming: Incoming, norm: string, cs: seq<Candidate>)
    requires DistinctIds(cs)
    ensures StrictOrderOn(ByRank(), Rows(env, incoming, norm, cs))
  {
    RowsAre(env, incoming, norm, cs);
    var rows := Rows(env, incoming, norm, cs);
    forall a, b | a in rows && b in rows && a != b ensures Before(a, b) || Before(b, a) {
      if a.candidate.id == b.candidate.id { SameIdSame(cs, a.candidate, b.candidate); }
    }
  }

  // ---- order independence ----

  lemma {:induction false} KeyOwnerIs(cs: seq<Candidate>, key: SourceKey)
    ensures KeyOwner(cs, key).Some? <==> exists c :: c in cs && key in c.sourceKeys
    ensures KeyOwner(cs, key).Some? ==> KeyOwner(cs, key).value in cs && key in KeyOwner(cs, key).value.sourceKeys
  {
    if cs != [] {
      KeyOwnerIs(cs[1..], key);
      assert cs == [cs[0]] + cs[1..];
    }
  }

  lemma OwnerPermutation(incoming: Incoming, cs: seq<Candidate>, ds: seq<Candidate>)
    requires multiset(cs) == multiset(ds) && UniqueKeys(cs)
    ensures OwnerOf(incoming, cs) == OwnerOf(incoming, ds)
  {
    SameElements(cs, ds);
    var key := (incoming.source, incoming.externalId);
    KeyOwnerIs(cs, key);
    KeyOwnerIs(ds, key);
  }

  /** The result is a function of the set of candidates, not of the order they are listed in. */
  lemma ResolvePermutation(env: Env, incoming: Incoming, cs: seq<Candidate>, ds: seq<Candidate>)
    requires multiset(cs) == multiset(ds) && DistinctIds(cs) && UniqueKeys(cs)
    ensures Resolve(env, incoming, cs) == Resolve(env, incoming, ds)
  {
    var norm := env.normalize(incoming.name);
    OwnerPermutation(incoming, cs, ds);
    RowsPermutation(env, incoming, norm, cs, ds);
    RankIsOrder(env, incoming, norm, cs);
    RowsDistinct(env, incoming, norm, cs);
    SortPermutation(ByRank(), Rows(env, incoming, norm, cs), Rows(env, incoming, norm, ds));
  }

  // ---- what a result means ----

  /** `a` outranks every other row. */
  ghost predicate First(rows: seq<Row>, a: Row) {
    a in rows && forall r | r in rows :: r == a || Before(a, r)
  }

  /** `a` and then `b` outrank every other row. */
  ghost predicate TopTwo(rows: seq<Row>, a: Row, b: Row) {
    First(rows, a) && b in rows && b != a && forall r | r in rows :: r == a || r == b || Before(b, r)
  }

  lemma LeadersLead(rows: seq<Row>, s: seq<Row>)
    requires multiset(rows) == multiset(s) && Sorted(ByRank(), s)
    ensures |s| == |rows|
    ensures |s| > 0 ==> First(rows, s[0])
    ensures |s| > 1 ==> TopTwo(rows, s[0], s[1])
  {
    SameElements(rows, s);
    SortedLeaders(ByRank(), s);
  }

  lemma SortedTop(env: Env, incoming: Incoming, norm: string, cs: seq<Candidate>)
    requires DistinctIds(cs)
    ensures var rows := Rows(env, incoming, norm, cs);
            var s := Sort(ByRank(), rows);
            && |s| == |rows|
            && (|s| > 0 ==> First(rows, s[0]))
            && (|s| > 1 ==> TopTwo(rows, s[0], s[1]))
  {
    var rows := Rows(env, incoming, norm, cs);
    RankIsOrder(env, incoming, norm, cs);
    RowsDistinct(env, incoming, norm, cs);
    SortSorted(ByRank(), rows);
    LeadersLead(rows, Sort(ByRank(), rows));
  }

  /** At most one row is first, and at most one second. */
  lemma TopTwoUnique(rows: seq<Row>, a: Row, b: Row, c: Row, d: Row)
    requires First(rows, a) && First(rows, c)
    ensures a == c
    ensures TopTwo(rows, a, b) && TopTwo(rows, c, d) ==> b == d
  {
  }

  /** No restaurant carries the source key, and the name is not empty: the tiers decide. */
  ghost predicate ByTiers(env: Env, incoming: Incoming, cs: seq<Candidate>) {
    OwnerOf(incoming, cs).None? && env.normalize(incoming.name) != ""
  }

  /** What the tiers admit for a candidate. */
  predicate Gate(env: Env, incoming: Incoming, c: Candidate, tier: Tier) {
    var norm := env.normalize(incoming.name);
    var s := env.similarity(norm, c.normalizedName);
    match tier
    case ExactName => c.normalizedName == norm && NoFurther(env, incoming, c, 250.0)
    case Alias => (exists a | a in c.aliases :: env.normalize(a) == norm) && NoFurther(env, incoming, c, 1000.0)
    case FuzzyGeo => s >= 0.82 && NoFurther(env, incoming, c, 250.0)
    case FuzzyStrict => s >= 0.92 && (incoming.at.None? || NoFurther(env, incoming, c, 1000.0))
  }

  /** Both places are known and at most `metres` apart. */
  predicate NoFurther(env: Env, incoming: Incoming, c: Candidate, metres: real) {
    incoming.at.Some? && env.distance(incoming.at.value, c.at) <= metres
  }

  lemma AliasHitIff(env: Env, c: Candidate, norm: string)
    ensures AliasHit(env, c, norm) <==> exists a | a in c.aliases :: env.normalize(a) == norm
  {
    if i :| 0 <= i < |c.aliases| && env.normalize(c.aliases[i]) == norm { assert c.aliases[i] in c.aliases; }
    if a :| a in c.aliases && env.normalize(a) == norm { var i :| 0 <= i < |c.aliases| && c.aliases[i] == a; }
  }

  /** How sure each tier is: exact names and aliases by themselves, the fuzzy ones by similarity. */
  function SureOf(tier: Tier, s: real): real {
    match tier case ExactName => 0.95 case Alias => 0.90 case FuzzyGeo => 0.60 + 0.4 * s case FuzzyStrict => 0.55 + 0.3 * s
  }

  /** A candidate is scored by the first tier that admits it, exact name before alias before the fuzzy ones, and not at all if none does. */
  lemma ScoredByFirstGate(env: Env, incoming: Incoming, c: Candidate)
    ensures var norm := env.normalize(incoming.name);
            var row, s := RowFor(env, incoming, norm, c), env.similarity(norm, c.normalizedName);
            && (row.None? <==> !(Gate(env, incoming, c, ExactName) || Gate(env, incoming, c, Alias)
                                 || Gate(env, incoming, c, FuzzyGeo) || Gate(env, incoming, c, FuzzyStrict)))
            && (row.Some? ==>
                  var r := row.value;
                  && r.candidate == c && Gate(env, incoming, c, r.tier) && r.confidence == SureOf(r.tier, s)
                  && r.similarity == (if r.tier.ExactName? || r.tier.Alias? then 1.0 else s)
                  && r.distance == (match incoming.at case None => None case Some(p) => Some(env.distance(p, c.at)))
                  && (!r.tier.ExactName? ==> !Gate(env, incoming, c, ExactName))
                  && (r.tier.FuzzyGeo? || r.tier.FuzzyStrict? ==> !Gate(env, incoming, c, Alias))
                  && (r.tier.FuzzyStrict? ==> !Gate(env, incoming, c, FuzzyGeo)))
  {
    AliasHitIff(env, c, env.normalize(incoming.name));
  }

  /** The restaurant that carries the source key is matched, with full confidence, whatever its name and place; otherwise no key decides. */
  lemma KeyDecides(env: Env, incoming: Incoming, cs: seq<Candidate>)
    requires UniqueKeys(cs)
    ensures forall c | c in cs && incoming.source != "" && incoming.externalId != "" && (incoming.source, incoming.externalId) in c.sourceKeys ::
              var r := Resolve(env, incoming, cs); r.matched == Some(c.id) && r.via == SourceKeyMatch && r.confidence == 1.0
    ensures Resolve(env, incoming, cs).via == SourceKeyMatch ==>
              exists c :: c in cs && incoming.source != "" && incoming.externalId != "" && (incoming.source, incoming.externalId) in c.sourceKeys
  {
    KeyOwnerIs(cs, (incoming.source, incoming.externalId));
  }

  /** The row behind a match made by the tiers. */
  lemma {:induction false} Winner(env: Env, incoming: Incoming, cs: seq<Candidate>) returns (best: Row)
    requires DistinctIds(cs) && Resolve(env, incoming, cs).via.Tiered?
    ensures First(Rows(env, incoming, env.normalize(incoming.name), cs), best)
    ensures var r := Resolve(env, incoming, cs);
            && r.matched == Some(best.candidate.id) && r.via == Tiered(best.tier)
            && r.similarity == best.similarity && r.distance == best.distance && r.confidence <= best.confidence
  {
    var norm := env.normalize(incoming.name);
    SortedTop(env, incoming, norm, cs);
    best := DecidedFirst(Sort(ByRank(), Rows(env, incoming, norm, cs)));
  }

  lemma {:induction false} DecidedFirst(rows: seq<Row>) returns (best: Row)
    requires Decide(rows).via.Tiered?
    ensures rows != [] && best == rows[0]
    ensures var r := Decide(rows);
            && r.matched == Some(best.candidate.id) && r.via == Tiered(best.tier)
            && r.similarity == best.similarity && r.distance == best.distance && r.confidence <= best.confidence
  {
    best := rows[0];
  }

  lemma RowIs(env: Env, incoming: Incoming, norm: string, cs: seq<Candidate>, r: Row)
    requires r in Rows(env, incoming, norm, cs)
    ensures r.candidate in cs && RowFor(env, incoming, norm, r.candidate) == Some(r)
  {
    RowsAre(env, incoming, norm, cs);
  }

  lemma RowOf(env: Env, incoming: Incoming, norm: string, cs: seq<Candidate>, c: Candidate)
    requires c in cs
    ensures var row := RowFor(env, incoming, norm, c); row.Some? ==> row.value.candidate == c && row.value in Rows(env, incoming, norm, cs)
  {
    RowsAre(env, incoming, norm, cs);
  }

  lemma RowPassedGate(env: Env, incoming: Incoming, c: Candidate, row: Row)
    requires RowFor(env, incoming, env.normalize(incoming.name), c) == Some(row)
    ensures Gate(env, incoming, c, row.tier)
  {
    ScoredByFirstGate(env, incoming, c);
  }

  /** A match names a listed candidate that passed its tier's gate and that no other candidate's row beats. */
  lemma MatchSound(env: Env, incoming: Incoming, cs: seq<Candidate>) returns (best: Row)
    requires DistinctIds(cs) && Resolve(env, incoming, cs).via.Tiered?
    ensures Resolve(env, incoming, cs).matched == Some(best.candidate.id) && Resolve(env, incoming, cs).via == Tiered(best.tier)
    ensures best.candidate in cs && Gate(env, incoming, best.candidate, best.tier)
    ensures forall d | d in cs && d != best.candidate && RowFor(env, incoming, env.normalize(incoming.name), d).Some? ::
              Before(best, RowFor(env, incoming, env.normalize(incoming.name), d).value)
  {
    var norm := env.normalize(incoming.name);
    best := Winner(env, incoming, cs);
    RowIs(env, incoming, norm, cs, best);
    RowPassedGate(env, incoming, best.candidate, best);
    forall d | d in cs && d != best.candidate && RowFor(env, incoming, norm, d).Some?
      ensures Before(best, RowFor(env, incoming, norm, d).value)
    {
      FirstBeats(env, incoming, norm, cs, best, d);
    }
  }

  lemma FirstBeats(env: Env, incoming: Incoming, norm: string, cs: seq<Candidate>, best: Row, d: Candidate)
    requires First(Rows(env, incoming, norm, cs), best) && d in cs && d != best.candidate
    ensures RowFor(env, incoming, norm, d).Some? ==> Before(best, RowFor(env, incoming, norm, d).value)
  {
    RowOf(env, incoming, norm, cs, d);
  }

  /** Refusal: exactly when the two best rows share a tier and are too close, and then nothing is matched. */
  lemma {:induction false} RefusesIff(env: Env, incoming: Incoming, cs: seq<Candidate>)
    requires DistinctIds(cs)
    ensures var r, rows := Resolve(env, incoming, cs), Rows(env, incoming, env.normalize(incoming.name), cs);
            && (r.via.Ambiguous? <==>
                 ByTiers(env, incoming, cs) && exists a, b :: TopTwo(rows, a, b) && a.tier == b.tier && a.confidence - b.confidence <= Margin)
            && (r.via.Ambiguous? <==> r.isAmbiguous)
            && (r.via.Ambiguous? ==> r.matched.None? && r.runnerUp.Some?)
  {
    var norm := env.normalize(incoming.name);
    var rows := Rows(env, incoming, norm, cs);
    SortedTop(env, incoming, norm, cs);
    var s := Sort(ByRank(), rows);
    if ByTiers(env, incoming, cs) {
      if |s| > 1 {
        forall a, b | TopTwo(rows, a, b) ensures a == s[0] && b == s[1] { TopTwoUnique(rows, a, b, s[0], s[1]); }
        assert TopTwo(rows, s[0], s[1]) && Before(s[0], s[1]);
      } else {
        forall a, b | TopTwo(rows, a, b) ensures false { TwoRows(rows, a, b); }
      }
    }
  }

  /** A refusal names the second best, with what is known of the best. */
  lemma {:induction false} RefusalNames(env: Env, incoming: Incoming, cs: seq<Candidate>, a: Row, b: Row)
    requires DistinctIds(cs) && Resolve(env, incoming, cs).via.Ambiguous?
    requires TopTwo(Rows(env, incoming, env.normalize(incoming.name), cs), a, b)
    ensures var r := Resolve(env, incoming, cs);
            r.runnerUp == Some(b.candidate.id) && r.confidence == a.confidence && r.similarity == a.similarity && r.distance == a.distance
  {
    SortedTop(env, incoming, env.normalize(incoming.name), cs);
    RefusedByTiers(env, incoming, cs);
    DecidedToRefuse(Rows(env, incoming, env.normalize(incoming.name), cs),
                    Sort(ByRank(), Rows(env, incoming, env.normalize(incoming.name), cs)), a, b);
  }

  lemma {:induction false} RefusedByTiers(env: Env, incoming: Incoming, cs: seq<Candidate>)
    requires Resolve(env, incoming, cs).via.Ambiguous?
    ensures Resolve(env, incoming, cs) == Decide(Sort(ByRank(), Rows(env, incoming, env.normalize(incoming.name), cs)))
  {
  }

  lemma {:induction false} DecidedToRefuse(rows: seq<Row>, s: seq<Row>, a: Row, b: Row)
    requires Decide(s).via.Ambiguous? && TopTwo(rows, a, b) && (|s| > 1 ==> TopTwo(rows, s[0], s[1]))
    ensures var r := Decide(s);
            r.runnerUp == Some(b.candidate.id) && r.confidence == a.confidence && r.similarity == a.similarity && r.distance == a.distance
  {
    TopTwoUnique(rows, a, b, s[0], s[1]);
  }

  lemma TwoRows(rows: seq<Row>, a: Row, b: Row)
    requires a in rows && b in rows && a != b
    ensures |rows| >= 2
  {
  }

  /** Nothing is matched and nothing is refused exactly when no candidate passes a gate, or the name is empty. */
  lemma NewIff(env: Env, incoming: Incoming, cs: seq<Candidate>)
    ensures var r, norm := Resolve(env, incoming, cs), env.normalize(incoming.name);
            && (r.via.New? <==>
                 (OwnerOf(incoming, cs).None? && (norm == "" || forall c | c in cs :: RowFor(env, incoming, norm, c).None?)))
            && (r.via.New? ==> r.matched.None? && r.confidence == if norm == "" then 0.0 else 0.30)
  {
    var norm := env.normalize(incoming.name);
    RowsAre(env, incoming, norm, cs);
    var rows := Rows(env, incoming, norm, cs);
    if rows != [] {
      assert rows[0] in rows;
    } else {
      forall c | c in cs ensures RowFor(env, incoming, norm, c).None? { RowOf(env, incoming, norm, cs, c); }
    }
  }

  /** Without coordinates only a near-identical name matches, and never with much confidence. */
  lemma NoCoordinates(env: Env, incoming: Incoming, cs: seq<Candidate>)
    requires env.Valid() && DistinctIds(cs) && incoming.at.None? && OwnerOf(incoming, cs).None?
    ensures var r := Resolve(env, incoming, cs);
            r.matched.Some? ==> r.via == Tiered(FuzzyStrict) && r.similarity >= Strong && r.confidence <= 0.85 && r.distance.None?
  {
    if Resolve(env, incoming, cs).via.Tiered? {
      var best := Winner(env, incoming, cs);
      RowIs(env, incoming, env.normalize(incoming.name), cs, best);
      RowWithoutCoordinates(env, incoming, env.normalize(incoming.name), best.candidate, best);
    }
  }

  lemma RowWithoutCoordinates(env: Env, incoming: Incoming, norm: string, c: Candidate, r: Row)
    requires env.Valid() && incoming.at.None? && RowFor(env, incoming, norm, c) == Some(r)
    ensures r.tier.FuzzyStrict? && r.similarity >= Strong && r.confidence <= 0.85 && r.distance.None?
  {
    var s := env.similarity(norm, c.normalizedName);
    assert 0.0 <= s <= 1.0;
  }

  // ---- an exact name does not always win ----

  lemma MatchedIsFirst(env: Env, incoming: Incoming, cs: seq<Candidate>, e: Row)
    requires DistinctIds(cs) && ByTiers(env, incoming, cs) && e in Rows(env, incoming, env.normalize(incoming.name), cs)
    ensures Resolve(env, incoming, cs).matched == Some(e.candidate.id) ==> First(Rows(env, incoming, env.normalize(incoming.name), cs), e)
  {
    if Resolve(env, incoming, cs).matched == Some(e.candidate.id) {
      var norm := env.normalize(incoming.name);
      var best := Winner(env, incoming, cs);
      RowIs(env, incoming, norm, cs, e);
      RowIs(env, incoming, norm, cs, best);
      SameIdSame(cs, e.candidate, best.candidate);
    }
  }

  lemma {:induction false} FirstIsMatched(env: Env, incoming: Incoming, cs: seq<Candidate>, e: Row)
    requires DistinctIds(cs) && ByTiers(env, incoming, cs) && First(Rows(env, incoming, env.normalize(incoming.name), cs), e)
    requires forall r | r in Rows(env, incoming, env.normalize(incoming.name), cs) && r.tier == e.tier :: r == e
    ensures Resolve(env, incoming, cs).matched == Some(e.candidate.id)
  {
    var norm := env.normalize(incoming.name);
    var rows := Rows(env, incoming, norm, cs);
    SortedTop(env, incoming, norm, cs);
    AloneOnTop(rows, Sort(ByRank(), rows), e);
  }

  lemma AloneOnTop(rows: seq<Row>, s: seq<Row>, e: Row)
    requires First(rows, e) && |s| == |rows| && (|s| > 0 ==> First(rows, s[0])) && (|s| > 1 ==> TopTwo(rows, s[0], s[1]))
    requires forall r | r in rows && r.tier == e.tier :: r == e
    ensures s != [] && s[0] == e && (|s| > 1 ==> s[1].tier != e.tier)
  {
  }

  /** Another row `r` cannot displace the exact name `e`. */
  predicate YieldsTo(e: Row, r: Row) {
    r.tier.FuzzyGeo? ==> r.similarity < 0.875 || (r.similarity == 0.875 && e.candidate.id < r.candidate.id)
  }

  lemma ExactAgainst(env: Env, incoming: Incoming, norm: string, cs: seq<Candidate>, e: Row, r: Row)
    requires env.Valid() && DistinctIds(cs) && e in Rows(env, incoming, norm, cs) && r in Rows(env, incoming, norm, cs)
    requires e != r && e.tier.ExactName? && !r.tier.ExactName?
    ensures r.candidate.id != e.candidate.id && (Before(e, r) <==> YieldsTo(e, r))
  {
    RowIs(env, incoming, norm, cs, e);
    RowIs(env, incoming, norm, cs, r);
    if r.candidate.id == e.candidate.id { SameIdSame(cs, r.candidate, e.candidate); }
  }

  /**
   * With one exact-name candidate, it is matched exactly when no nearby candidate is so similar
   * that 0.60 + 0.4 * similarity passes 0.95.
   */
  lemma ExactNameWinsIff(env: Env, incoming: Incoming, cs: seq<Candidate>, e: Row)
    requires env.Valid() && DistinctIds(cs) && ByTiers(env, incoming, cs)
    requires var rows := Rows(env, incoming, env.normalize(incoming.name), cs);
             e in rows && e.tier.ExactName? && forall r | r in rows && r.tier.ExactName? :: r == e
    ensures Resolve(env, incoming, cs).matched == Some(e.candidate.id)
            <==> forall r | r in Rows(env, incoming, env.normalize(incoming.name), cs) && r != e :: YieldsTo(e, r)
  {
    var norm := env.normalize(incoming.name);
    var rows := Rows(env, incoming, norm, cs);
    forall r | r in rows && r != e ensures Before(e, r) <==> YieldsTo(e, r) {
      ExactAgainst(env, incoming, norm, cs, e, r);
    }
    if First(rows, e) {
      FirstIsMatched(env, incoming, cs, e);
    } else {
      MatchedIsFirst(env, incoming, cs, e);
    }
  }

  /** A fuzzy neighbour beats the restaurant that bears the very name. */
  lemma FuzzyOutranksExact()
    ensures var env := Env((s: string) => s, (a: string, b: string) => if a == b then 1.0 else 0.9, (p: Point, q: Point) => 0.0);
            var exact := Candidate(0, "momo mia", (0.0, 0.0), [], []);
            var fuzzy := Candidate(1, "momo mias", (0.0, 0.0), [], []);
            var r := Resolve(env, Incoming("momo mia", Some((0.0, 0.0)), "", ""), [exact, fuzzy]);
            env.Valid() && r.matched == Some(1) && r.via == Tiered(FuzzyGeo)
  {
    var env := Env((s: string) => s, (a: string, b: string) => if a == b then 1.0 else 0.9, (p: Point, q: Point) => 0.0);
    var exact := Candidate(0, "momo mia", (0.0, 0.0), [], []);
    var fuzzy := Candidate(1, "momo mias", (0.0, 0.0), [], []);
    var incoming := Incoming("momo mia", Some((0.0, 0.0)), "", "");
    var a := Row(0.95, ExactName, exact, 1.0, Some(0.0));
    var b := Row(0.60 + 0.4 * 0.9, FuzzyGeo, fuzzy, 0.9, Some(0.0));
    assert RowFor(env, incoming, "momo mia", exact) == Some(a);
    assert fuzzy.normalizedName != "momo mia" by { assert |fuzzy.normalizedName| == 9; }
    assert RowFor(env, incoming, "momo mia", fuzzy) == Some(b);
    RowsOne(env, incoming, "momo mia", exact);
    RowsOne(env, incoming, "momo mia", fuzzy);
    RowsAppend(env, incoming, "momo mia", [exact], [fuzzy]);
    assert [exact] + [fuzzy] == [exact, fuzzy];
    assert Rows(env, incoming, "momo mia", [exact, fuzzy]) == [a, b];
    assert [a, b][1..] == [b] && [b][1..] == [];
    assert Sort(ByRank(), [b]) == [b];
    assert Sort(ByRank(), [a, b]) == [b, a];
  }
}
