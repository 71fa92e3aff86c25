/** Badges of a dish's entries, assigned in place once the whole peer group is scored. */
module Badges {
  import opened Wrappers
  import opened Stats
  import opened Sorting

  /** One restaurant's result for a dish: its figures, and the flags that the badges set. */
  class Entry {
    const restaurant: string
    const ranked: bool
    const value: Option<real>
    const mentions: nat
    const consistency: real
    const observed: real
    var bestValue: bool
    var mostConsistent: bool
    var hiddenGem: bool

    constructor (restaurant: string, ranked: bool, value: Option<real>, mentions: nat, consistency: real, observed: real)
      ensures this.restaurant == restaurant && this.ranked == ranked && this.value == value
      ensures this.mentions == mentions && this.consistency == consistency && this.observed == observed
      ensures !bestValue && !mostConsistent && !hiddenGem
    {
      this.restaurant, this.ranked, this.value := restaurant, ranked, value;
      this.mentions, this.consistency, this.observed := mentions, consistency, observed;
      bestValue, mostConsistent, hiddenGem := false, false, false;
    }
  }

  // ---- pools ----

  function Select(p: Entry -> bool, entries: seq<Entry>): (r: seq<Entry>)
    ensures forall e | e in r :: e in entries && p(e)
    ensures forall e | e in entries && p(e) :: e in r
    ensures |r| <= |entries|
  {
    if entries == [] then [] else
      var n := |entries| - 1;
      assert entries == entries[..n] + [entries[n]];
      Select(p, entries[..n]) + (if p(entries[n]) then [entries[n]] else [])
  }

  function IsRanked(): Entry -> bool { (e: Entry) => e.ranked }

  function IsValued(): Entry -> bool { (e: Entry) => e.ranked && e.value.Some? }

  function HasSample(): Entry -> bool { (e: Entry) => e.ranked && e.mentions >= 5 }

  function Value(): Entry -> real { (e: Entry) => if e.value.Some? then e.value.value else 0.0 }

  function Consistency(): Entry -> real { (e: Entry) => e.consistency }

  /** `e` is the first of the largest in the pool, which is what `max` returns. */
  ghost predicate IsFirstMax(pool: seq<Entry>, key: Entry -> real, e: Entry) {
    exists i :: 0 <= i < |pool| && pool[i] == e && LeadsPool(pool, key, i)
  }

  ghost predicate LeadsPool(pool: seq<Entry>, key: Entry -> real, i: nat)
    requires i < |pool|
  {
    (forall j | 0 <= j < |pool| :: key(pool[j]) <= key(pool[i])) && (forall j | 0 <= j < i :: key(pool[j]) < key(pool[i]))
  }

  method FirstMax(pool: seq<Entry>, key: Entry -> real) returns (best: Entry)
    requires pool != []
    ensures IsFirstMax(pool, key, best)
  {
    var i := 0;
    for j := 1 to |pool|
      invariant i < j
      invariant forall k | 0 <= k < j :: key(pool[k]) <= key(pool[i])
      invariant forall k | 0 <= k < i :: key(pool[k]) < key(pool[i])
    {
      if key(pool[j]) > key(pool[i]) { i := j; }
    }
    assert LeadsPool(pool, key, i);
    best := pool[i];
  }

  lemma FirstMaxUnique(pool: seq<Entry>, key: Entry -> real, e: Entry, f: Entry)
    requires IsFirstMax(pool, key, e) && IsFirstMax(pool, key, f)
    ensures e == f
  {
    var i :| 0 <= i < |pool| && pool[i] == e && LeadsPool(pool, key, i);
    var j :| 0 <= j < |pool| && pool[j] == f && LeadsPool(pool, key, j);
  }

  // ---- hidden gems ----

  function FewerFirst(a: (nat, nat), b: (nat, nat)): bool { a.0 < b.0 || (a.0 == b.0 && a.1 < b.1) }

  function ByCount(): ((nat, nat), (nat, nat)) -> bool { (a: (nat, nat), b: (nat, nat)) => FewerFirst(a, b) }

  /** Mention counts, each with its place in the list so that equal counts stay apart. */
  function CountsOf(pool: seq<Entry>): (r: seq<(nat, nat)>)
    ensures |r| == |pool| && forall i | 0 <= i < |r| :: r[i] == (pool[i].mentions, i)
  {
    seq(|pool|, i requires 0 <= i < |pool| => (pool[i].mentions, i))
  }

  function CutoffIndex(n: nat): nat { if n / 3 >= 1 then n / 3 - 1 else 0 }

  /** The mention count that separates the least discussed third. */
  function Cutoff(ranked: seq<Entry>): nat
    requires ranked != []
  {
    Sort(ByCount(), CountsOf(ranked))[CutoffIndex(|ranked|)].0
  }

  predicate IsGem(entries: seq<Entry>, e: Entry) {
    var ranked := Select(IsRanked(), entries);
    && |ranked| >= 3 && e.ranked
    && e.observed >= 0.85 && e.consistency >= 0.60 && e.mentions <= Cutoff(ranked)
  }

  // ---- the assignment ----

  method AssignBadges(entries: seq<Entry>)
    requires forall e | e in entries :: !e.bestValue && !e.mostConsistent && !e.hiddenGem
    modifies entries
    ensures forall e | e in entries :: e.bestValue <==> IsFirstMax(Select(IsValued(), entries), Value(), e)
    ensures forall e | e in entries :: e.mostConsistent <==> IsFirstMax(Select(HasSample(), entries), Consistency(), e)
    ensures forall e | e in entries :: e.hiddenGem <==> IsGem(entries, e)
  {
    MarkBestValue(entries);
    MarkMostConsistent(entries);
    MarkHiddenGems(entries);
  }

  method MarkBestValue(entries: seq<Entry>)
    requires forall e | e in entries :: !e.bestValue
    modifies entries
    ensures forall e | e in entries :: e.mostConsistent == old(e.mostConsistent) && e.hiddenGem == old(e.hiddenGem)
    ensures forall e | e in entries :: e.bestValue <==> IsFirstMax(Select(IsValued(), entries), Value(), e)
  {
    var valued := Select(IsValued(), entries);
    if valued != [] {
      var best := FirstMax(valued, Value());
      assert best in valued;
      forall e | IsFirstMax(valued, Value(), e) ensures e == best { FirstMaxUnique(valued, Value(), e, best); }
      best.bestValue := true;
    }
  }

  method MarkMostConsistent(entries: seq<Entry>)
    requires forall e | e in entries :: !e.mostConsistent
    modifies entries
    ensures forall e | e in entries :: e.bestValue == old(e.bestValue) && e.hiddenGem == old(e.hiddenGem)
    ensures forall e | e in entries :: e.mostConsistent <==> IsFirstMax(Select(HasSample(), entries), Consistency(), e)
  {
    var pool := Select(HasSample(), entries);
    if pool != [] {
      var most := FirstMax(pool, Consistency());
      assert most in pool;
      forall e | IsFirstMax(pool, Consistency(), e) ensures e == most { FirstMaxUnique(pool, Consistency(), e, most); }
      most.mostConsistent := true;
    }
  }

  method MarkHiddenGems(entries: seq<Entry>)
    requires forall e | e in entries :: !e.hiddenGem
    modifies entries
    ensures forall e | e in entries :: e.bestValue == old(e.bestValue) && e.mostConsistent == old(e.mostConsistent)
    ensures forall e | e in entries :: e.hiddenGem <==> IsGem(entries, e)
  {
    var ranked := Select(IsRanked(), entries);
    if |ranked| < 3 {
      return;
    }
    var cutoff := Cutoff(ranked);
    for i := 0 to |ranked|
      invariant forall e | e in entries :: e.hiddenGem <==> e in ranked[..i] && Deserves(cutoff, e)
      invariant forall e | e in entries :: e.bestValue == old(e.bestValue) && e.mostConsistent == old(e.mostConsistent)
    {
      var e := ranked[i];
      assert e in ranked;
      forall x ensures x in ranked[..i + 1] <==> x in ranked[..i] || x == e { OneMore(ranked, i, x); }
      if e.observed >= 0.85 && e.consistency >= 0.60 && e.mentions <= cutoff {
        e.hiddenGem := true;
      }
    }
    forall e | e in entries ensures e.hiddenGem <==> IsGem(entries, e) {
      assert ranked[..|ranked|] == ranked;
      GemIff(entries, e);
    }
  }

  lemma OneMore(pool: seq<Entry>, i: nat, x: Entry)
    requires i < |pool|
    ensures x in pool[..i + 1] <==> x in pool[..i] || x == pool[i]
  {
    assert pool[..i + 1] == pool[..i] + [pool[i]];
  }

  lemma GemIff(entries: seq<Entry>, e: Entry)
    requires |Select(IsRanked(), entries)| >= 3 && e in entries
    ensures var ranked := Select(IsRanked(), entries);
            IsGem(entries, e) <==> e in ranked && Deserves(Cutoff(ranked), e)
  {
  }

  predicate Deserves(cutoff: nat, e: Entry) {
    e.observed >= 0.85 && e.consistency >= 0.60 && e.mentions <= cutoff
  }

  // ---- what the badges mean ----

  /** Each of the two superlatives goes to one entry at most, and to one whenever its pool is not empty. */
  lemma OneBest(pool: seq<Entry>, key: Entry -> real) returns (best: Entry)
    requires pool != []
    ensures best in pool && IsFirstMax(pool, key, best)
    ensures forall e | e in pool :: IsFirstMax(pool, key, e) ==> e == best
    ensures forall e | e in pool :: key(e) <= key(best)
  {
    var i := FirstMaxIndex(pool, key, |pool|);
    best := pool[i];
    assert LeadsPool(pool, key, i);
    forall e | e in pool && IsFirstMax(pool, key, e) ensures e == best { FirstMaxUnique(pool, key, e, best); }
  }

  lemma {:induction false} FirstMaxIndex(pool: seq<Entry>, key: Entry -> real, n: nat) returns (i: nat)
    requires 0 < n <= |pool|
    ensures i < n && (forall j | 0 <= j < n :: key(pool[j]) <= key(pool[i])) && (forall j | 0 <= j < i :: key(pool[j]) < key(pool[i]))
  {
    if n == 1 {
      i := 0;
    } else {
      i := FirstMaxIndex(pool, key, n - 1);
      if key(pool[n - 1]) > key(pool[i]) { i := n - 1; }
    }
  }

  /** Without a tie at the top, the order in which the rows were read does not matter. */
  lemma NoTieNoOrder(pool: seq<Entry>, other: seq<Entry>, key: Entry -> real, e: Entry)
    requires multiset(pool) == multiset(other) && e in pool && forall f | f in pool && f != e :: key(f) < key(e)
    ensures IsFirstMax(pool, key, e) && IsFirstMax(other, key, e)
  {
    SameElements(pool, other);
    Topmost(pool, key, e);
    Topmost(other, key, e);
  }

  lemma Topmost(pool: seq<Entry>, key: Entry -> real, e: Entry)
    requires e in pool && forall f | f in pool && f != e :: key(f) < key(e)
    ensures IsFirstMax(pool, key, e)
  {
    var i := FirstMaxIndex(pool, key, |pool|);
    assert LeadsPool(pool, key, i);
    assert pool[i] in pool;
    var j :| 0 <= j < |pool| && pool[j] == e;
    assert key(e) <= key(pool[i]);
  }

  function AtLeast(m: nat): Entry -> bool { (e: Entry) => e.mentions >= m }

  lemma CountsOrder(pool: seq<Entry>)
    ensures StrictOrderOn(ByCount(), CountsOf(pool)) && Distinct(CountsOf(pool))
  {
  }

  /** How many of the pool have at least `m` mentions is how many of their sorted counts do. */
  lemma {:induction false} CountAbove(counts: seq<(nat, nat)>, m: nat, k: nat)
    requires k <= |counts| && forall i | k <= i < |counts| :: counts[i].0 >= m
    ensures Count(AtLeastPair(m), counts) >= |counts| - k
  {
    if counts != [] {
      CountAbove(counts[1..], m, if k == 0 then 0 else k - 1);
    }
  }

  function AtLeastPair(m: nat): ((nat, nat)) -> bool { (c: (nat, nat)) => c.0 >= m }

  lemma {:induction false} CountMap(pool: seq<Entry>, counts: seq<(nat, nat)>, m: nat)
    requires |counts| == |pool| && forall i | 0 <= i < |pool| :: counts[i].0 == pool[i].mentions
    ensures Count(AtLeastPair(m), counts) == Count(AtLeast(m), pool)
  {
    if pool != [] { CountMap(pool[1..], counts[1..], m); }
  }

  /** A hidden gem is under-discussed: at least two thirds of its ranked peers have as many mentions or more. */
  lemma {:induction false} GemsAreUnderDiscussed(entries: seq<Entry>, e: Entry)
    requires IsGem(entries, e)
    ensures var ranked := Select(IsRanked(), entries);
            3 * Count(AtLeast(e.mentions), ranked) >= 2 * |ranked|
  {
    var ranked := Select(IsRanked(), entries);
    var counts := CountsOf(ranked);
    var sorted, k := Sort(ByCount(), counts), CutoffIndex(|ranked|);
    CountsOrder(ranked);
    SortSorted(ByCount(), counts);
    forall i | k <= i < |sorted| ensures sorted[i].0 >= e.mentions {
      if i > k { assert ByCount()(sorted[k], sorted[i]); }
    }
    CountAbove(sorted, e.mentions, k);
    CountPermutation(AtLeastPair(e.mentions), sorted, counts);
    CountMap(ranked, counts, e.mentions);
  }

  // ---- the badges, in the fields of the entries ----

  /** The best value is ranked, has a value, and none ranked has a higher one; without a tie the highest has the badge. */
  lemma BestValueIs(entries: seq<Entry>, e: Entry)
    ensures IsFirstMax(Select(IsValued(), entries), Value(), e) ==>
              e in entries && e.ranked && e.value.Some? && forall f | f in entries && f.ranked && f.value.Some? :: f.value.value <= e.value.value
    ensures e in entries && e.ranked && e.value.Some?
            && (forall f | f in entries && f != e && f.ranked && f.value.Some? :: f.value.value < e.value.value) ==>
              IsFirstMax(Select(IsValued(), entries), Value(), e)
  {
    var pool := Select(IsValued(), entries);
    if IsFirstMax(pool, Value(), e) {
      assert e in pool;
      forall f | f in entries && f.ranked && f.value.Some? ensures f.value.value <= e.value.value { BelowFirstMax(pool, Value(), e, f); }
    }
    if e in entries && e.ranked && e.value.Some? && forall f | f in entries && f != e && f.ranked && f.value.Some? :: f.value.value < e.value.value {
      Topmost(pool, Value(), e);
    }
  }

  lemma BelowFirstMax(pool: seq<Entry>, key: Entry -> real, e: Entry, f: Entry)
    requires IsFirstMax(pool, key, e) && f in pool
    ensures e in pool && key(f) <= key(e)
  {
    var i :| 0 <= i < |pool| && pool[i] == e && LeadsPool(pool, key, i);
    var j :| 0 <= j < |pool| && pool[j] == f;
  }

  /** The most consistent is ranked on five mentions or more, and none of those is more consistent. */
  lemma MostConsistentIs(entries: seq<Entry>, e: Entry)
    ensures IsFirstMax(Select(HasSample(), entries), Consistency(), e) ==>
              e in entries && e.ranked && e.mentions >= 5 && forall f | f in entries && f.ranked && f.mentions >= 5 :: f.consistency <= e.consistency
    ensures e in entries && e.ranked && e.mentions >= 5
            && (forall f | f in entries && f != e && f.ranked && f.mentions >= 5 :: f.consistency < e.consistency) ==>
              IsFirstMax(Select(HasSample(), entries), Consistency(), e)
  {
    var pool := Select(HasSample(), entries);
    if IsFirstMax(pool, Consistency(), e) {
      forall f | f in entries && f.ranked && f.mentions >= 5 ensures f.consistency <= e.consistency { BelowFirstMax(pool, Consistency(), e, f); }
    }
    if e in entries && e.ranked && e.mentions >= 5 && forall f | f in entries && f != e && f.ranked && f.mentions >= 5 :: f.consistency < e.consistency {
      Topmost(pool, Consistency(), e);
    }
  }

  lemma {:induction false} CountBelow(counts: seq<(nat, nat)>, m: nat, k: nat)
    requires k <= |counts| && forall i | 0 <= i < k :: counts[i].0 < m
    ensures Count(AtLeastPair(m), counts) <= |counts| - k
  {
    if counts != [] { CountBelow(counts[1..], m, if k == 0 then 0 else k - 1); }
  }

  lemma {:induction false} WithinCutoffIff(ranked: seq<Entry>, m: nat)
    requires ranked != []
    ensures m <= Cutoff(ranked) <==> Count(AtLeast(m), ranked) >= |ranked| - CutoffIndex(|ranked|)
  {
    var counts := CountsOf(ranked);
    var sorted, k := Sort(ByCount(), counts), CutoffIndex(|ranked|);
    CountsOrder(ranked);
    SortSorted(ByCount(), counts);
    CountPermutation(AtLeastPair(m), sorted, counts);
    CountMap(ranked, counts, m);
    if m <= sorted[k].0 {
      forall i | k <= i < |sorted| ensures sorted[i].0 >= m { assert i > k ==> ByCount()(sorted[k], sorted[i]); }
      CountAbove(sorted, m, k);
    } else {
      forall i | 0 <= i < k + 1 ensures sorted[i].0 < m { assert i < k ==> ByCount()(sorted[i], sorted[k]); }
      CountBelow(sorted, m, k + 1);
    }
  }

  /**
   * A hidden gem is exactly a ranked entry of three or more, liked at 0.85 and consistent at 0.60, that fewer
   * than a third of the ranked entries, or just one, are discussed less than.
   */
  lemma {:induction false} GemExactly(entries: seq<Entry>, e: Entry)
    ensures var ranked := Select(IsRanked(), entries);
            && (forall f | f in ranked :: f in entries && f.ranked) && (forall f | f in entries && f.ranked :: f in ranked)
            && (IsGem(entries, e) <==>
                  && |ranked| >= 3 && e.ranked && e.observed >= 0.85 && e.consistency >= 0.60
                  && (|ranked| - Count(AtLeast(e.mentions), ranked) < |ranked| / 3))
  {
    var ranked := Select(IsRanked(), entries);
    if |ranked| >= 3 { WithinCutoffIff(ranked, e.mentions); }
  }
}
