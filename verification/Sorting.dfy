/** Sorting by an explicit order, and when the result depends only on the elements. */
module Sorting {

  /** `less` compares any two different elements of `s`, and does so transitively. */
  ghost predicate StrictOrderOn<T(!new)>(less: (T, T) -> bool, s: seq<T>) {
    && (forall x | x in s :: !less(x, x))
    && (forall x, y | x in s && y in s && x != y :: less(x, y) || less(y, x))
    && (forall x, y, z | x in s && y in s && z in s && less(x, y) && less(y, z) :: less(x, z))
  }

  ghost predicate Distinct<T>(s: seq<T>) {
    forall i, j | 0 <= i < j < |s| :: s[i] != s[j]
  }

  ghost predicate Sorted<T>(less: (T, T) -> bool, s: seq<T>) {
    forall i, j | 0 <= i < j < |s| :: less(s[i], s[j])
  }

  function Insert<T>(less: (T, T) -> bool, x: T, s: seq<T>): (r: seq<T>)
    ensures multiset(r) == multiset([x] + s)
  {
    if s == [] || !less(s[0], x) then
      [x] + s
    else
      var r := [s[0]] + Insert(less, x, s[1..]);
      assert s == [s[0]] + s[1..];
      r
  }

  function Sort<T>(less: (T, T) -> bool, s: seq<T>): (r: seq<T>)
    ensures multiset(r) == multiset(s)
    ensures |r| == |s|
  {
    if s == [] then [] else
      assert s == [s[0]] + s[1..];
      var r := Insert(less, s[0], Sort(less, s[1..]));
      assert |multiset(r)| == |multiset(s)|;
      r
  }

  lemma SameElements<T>(s: seq<T>, t: seq<T>)
    requires multiset(s) == multiset(t)
    ensures forall x :: x in s <==> x in t
    ensures |s| == |t|
  {
    forall x ensures x in s <==> x in t {
      assert x in s <==> x in multiset(s);
      assert x in t <==> x in multiset(t);
    }
    assert |multiset(s)| == |multiset(t)|;
  }

  lemma {:induction false} DistinctIsMultiplicity<T>(s: seq<T>)
    ensures Distinct(s) <==> forall x | x in s :: multiset(s)[x] == 1
  {
    if s != [] {
      DistinctIsMultiplicity(s[1..]);
      assert s == [s[0]] + s[1..];
      var m := multiset(s[1..]);
      if Distinct(s) {
        assert s[0] !in s[1..];
        forall x | x in s ensures multiset(s)[x] == 1 {
          if x != s[0] {
            assert x in s[1..];
            assert m[x] == 1;
          }
        }
      } else {
        var i, j :| 0 <= i < j < |s| && s[i] == s[j];
        if i == 0 {
          assert s[j] == s[1..][j - 1];
          assert multiset(s)[s[0]] >= 2;
        } else {
          assert s[1..][i - 1] == s[1..][j - 1];
          var x :| x in s[1..] && m[x] != 1;
          assert m[x] >= 2;
          assert x in s;
        }
      }
    }
  }

  lemma DistinctPermutation<T>(s: seq<T>, t: seq<T>)
    requires multiset(s) == multiset(t) && Distinct(s)
    ensures Distinct(t)
  {
    DistinctIsMultiplicity(s);
    DistinctIsMultiplicity(t);
    SameElements(s, t);
  }

  lemma {:induction false} InsertSorted<T(!new)>(less: (T, T) -> bool, x: T, s: seq<T>)
    requires StrictOrderOn(less, [x] + s) && Sorted(less, s) && x !in s
    ensures Sorted(less, Insert(less, x, s))
  {
    if s == [] || !less(s[0], x) {
      forall j | 0 <= j < |s| ensures less(x, s[j]) {
        assert s[j] in [x] + s && x in [x] + s && s[0] in [x] + s;
      }
    } else {
      forall y | y in [x] + s[1..] ensures y in [x] + s {
        assert y == x || y in s[1..];
      }
      InsertSorted(less, x, s[1..]);
      var rest := Insert(less, x, s[1..]);
      SameElements(rest, [x] + s[1..]);
      forall j | 0 <= j < |rest| ensures less(s[0], rest[j]) {
        assert rest[j] in [x] + s[1..];
        if rest[j] != x {
          var i :| 0 <= i < |s[1..]| && s[1..][i] == rest[j];
          assert less(s[0], s[i + 1]);
        }
      }
    }
  }

  lemma {:induction false} SortSorted<T(!new)>(less: (T, T) -> bool, s: seq<T>)
    requires StrictOrderOn(less, s) && Distinct(s)
    ensures Sorted(less, Sort(less, s))
  {
    if s != [] {
      SortSorted(less, s[1..]);
      var t := Sort(less, s[1..]);
      SameElements(t, s[1..]);
      forall y | y in [s[0]] + t ensures y in s {
        assert y == s[0] || y in s[1..];
      }
      assert s[0] !in s[1..];
      InsertSorted(less, s[0], t);
    }
  }

  lemma SortedHeads<T(!new)>(less: (T, T) -> bool, s: seq<T>, t: seq<T>)
    requires StrictOrderOn(less, s) && multiset(s) == multiset(t) && s != [] && t != []
    requires Sorted(less, s) && Sorted(less, t)
    ensures s[0] == t[0]
  {
    SameElements(s, t);
    assert s[0] in t && t[0] in s;
    var i :| 0 <= i < |t| && t[i] == s[0];
    var j :| 0 <= j < |s| && s[j] == t[0];
    if i != 0 && j != 0 {
      assert false;
    }
  }

  lemma OrderOnTail<T(!new)>(less: (T, T) -> bool, s: seq<T>)
    requires s != [] && StrictOrderOn(less, s)
    ensures StrictOrderOn(less, s[1..])
  {
    forall x | x in s[1..] ensures x in s {}
  }

  lemma TailElements<T>(s: seq<T>, t: seq<T>)
    requires s != [] && t != [] && s[0] == t[0] && multiset(s) == multiset(t)
    ensures multiset(s[1..]) == multiset(t[1..])
  {
    assert s == [s[0]] + s[1..] && t == [t[0]] + t[1..];
    assert multiset(s[1..]) == multiset(s) - multiset{s[0]};
    assert multiset(t[1..]) == multiset(t) - multiset{t[0]};
  }

  /** Two sorted arrangements of the same elements are the same sequence. */
  lemma {:induction false} SortedUnique<T(!new)>(less: (T, T) -> bool, s: seq<T>, t: seq<T>)
    requires StrictOrderOn(less, s) && multiset(s) == multiset(t)
    requires Sorted(less, s) && Sorted(less, t)
    ensures s == t
  {
    assert |multiset(s)| == |multiset(t)|;
    if s != [] {
      SortedHeads(less, s, t);
      OrderOnTail(less, s);
      TailElements(s, t);
      SortedUnique(less, s[1..], t[1..]);
      SameHeadAndTail(s, t);
    }
  }

  lemma SameHeadAndTail<T>(s: seq<T>, t: seq<T>)
    requires s != [] && t != [] && s[0] == t[0] && s[1..] == t[1..]
    ensures s == t
  {
    assert s == [s[0]] + s[1..] && t == [t[0]] + t[1..];
  }

  /** Sorting forgets the order of its input. */
  lemma {:induction false} SortPermutation<T(!new)>(less: (T, T) -> bool, s: seq<T>, t: seq<T>)
    requires multiset(s) == multiset(t) && StrictOrderOn(less, s) && Distinct(s)
    ensures Sort(less, s) == Sort(less, t)
  {
    SameElements(s, t);
    DistinctPermutation(s, t);
    SortSorted(less, s);
    SortSorted(less, t);
    SameElements(s, Sort(less, s));
    SortedUnique(less, Sort(less, s), Sort(less, t));
  }

  /** The first two of a sorted sequence come before everything else in it. */
  lemma SortedLeaders<T>(less: (T, T) -> bool, s: seq<T>)
    requires Sorted(less, s)
    ensures |s| > 0 ==> forall x | x in s :: x == s[0] || less(s[0], x)
    ensures |s| > 1 ==> less(s[0], s[1]) && forall x | x in s :: x == s[0] || x == s[1] || less(s[1], x)
  {
    forall x | x in s && |s| > 1 ensures x == s[0] || x == s[1] || less(s[1], x) {
      var j :| 0 <= j < |s| && s[j] == x;
      if j > 1 { assert less(s[1], s[j]); }
    }
  }
}
