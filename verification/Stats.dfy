/** Sums over sequences and sets, and what they do not depend on. */
module Stats {
  import opened Reals

  function Sum<T>(f: T -> real, s: seq<T>): real {
    if s == [] then 0.0 else f(s[0]) + Sum(f, s[1..])
  }

  lemma {:induction false} SumAppend<T>(f: T -> real, s: seq<T>, t: seq<T>)
    ensures Sum(f, s + t) == Sum(f, s) + Sum(f, t)
  {
    if s == [] {
      assert s + t == t;
    } else {
      assert (s + t)[1..] == s[1..] + t;
      SumAppend(f, s[1..], t);
    }
  }

  /** A sum is a function of the multiset of its terms. */
  lemma {:induction false} SumPermutation<T>(f: T -> real, s: seq<T>, t: seq<T>)
    requires multiset(s) == multiset(t)
    ensures Sum(f, s) == Sum(f, t)
  {
    if s == [] {
      assert |multiset(t)| == |t|;
      assert t == [];
    } else {
      assert s[0] in multiset(t);
      var i :| 0 <= i < |t| && t[i] == s[0];
      var rest := t[..i] + t[i + 1..];
      RemoveAt(s, t, i);
      SumPermutation(f, s[1..], rest);
      assert t == t[..i] + ([t[i]] + t[i + 1..]);
      SumAppend(f, t[..i], [t[i]] + t[i + 1..]);
      SumAppend(f, t[..i], t[i + 1..]);
    }
  }

  lemma RemoveAt<T>(s: seq<T>, t: seq<T>, i: nat)
    requires multiset(s) == multiset(t) && i < |t| && s != [] && t[i] == s[0]
    ensures multiset(s[1..]) == multiset(t[..i] + t[i + 1..])
  {
    assert s == [s[0]] + s[1..];
    assert t == t[..i] + [t[i]] + t[i + 1..];
    assert multiset(t) == multiset(t[..i]) + multiset{t[i]} + multiset(t[i + 1..]);
    assert multiset(s[1..]) == multiset(s) - multiset{s[0]};
  }

  lemma {:induction false} SumLe<T>(f: T -> real, g: T -> real, s: seq<T>)
    requires forall x | x in s :: f(x) <= g(x)
    ensures Sum(f, s) <= Sum(g, s)
  {
    if s != [] {
      SumLe(f, g, s[1..]);
    }
  }

  function Const<T>(c: real): T -> real { (x: T) => c }

  lemma {:induction false} SumConst<T>(c: real, s: seq<T>)
    ensures Sum(Const<T>(c), s) == c * (|s| as real)
  {
    if s != [] {
      SumConst(c, s[1..]);
      assert c * ((|s| - 1) as real + 1.0) == c * ((|s| - 1) as real) + c;
    }
  }

  /** Bounds on the terms are bounds on the sum. */
  lemma SumBounds<T>(f: T -> real, lo: real, hi: real, s: seq<T>)
    requires forall x | x in s :: lo <= f(x) <= hi
    ensures lo * (|s| as real) <= Sum(f, s) <= hi * (|s| as real)
  {
    SumConst(lo, s);
    SumConst(hi, s);
    SumLe(Const<T>(lo), f, s);
    SumLe(f, Const<T>(hi), s);
  }

  function Mean<T>(f: T -> real, s: seq<T>): real
    requires s != []
  {
    Sum(f, s) / (|s| as real)
  }

  lemma MeanBounds<T>(f: T -> real, lo: real, hi: real, s: seq<T>)
    requires s != [] && forall x | x in s :: lo <= f(x) <= hi
    ensures lo <= Mean(f, s) <= hi
  {
    SumBounds(f, lo, hi, s);
    DivBounds(Sum(f, s), |s| as real, lo, hi);
  }

  /** The smallest value of `f` on a non-empty sequence. */
  function Least<T>(f: T -> real, s: seq<T>): (r: real)
    requires s != []
    ensures forall x | x in s :: r <= f(x)
    ensures exists x :: x in s && r == f(x)
  {
    if |s| == 1 then f(s[0]) else
      var rest := Least(f, s[1..]);
      assert s == [s[0]] + s[1..];
      if f(s[0]) <= rest then f(s[0]) else rest
  }

  function Count<T>(p: T -> bool, s: seq<T>): nat {
    if s == [] then 0 else (if p(s[0]) then 1 else 0) + Count(p, s[1..])
  }

  function Indicator<T>(p: T -> bool): T -> real { (x: T) => if p(x) then 1.0 else 0.0 }

  lemma {:induction false} CountIsSum<T>(p: T -> bool, s: seq<T>)
    ensures Count(p, s) as real == Sum(Indicator(p), s)
  {
    if s != [] { CountIsSum(p, s[1..]); }
  }

  lemma CountPermutation<T>(p: T -> bool, s: seq<T>, t: seq<T>)
    requires multiset(s) == multiset(t)
    ensures Count(p, s) == Count(p, t)
  {
    CountIsSum(p, s);
    CountIsSum(p, t);
    SumPermutation(Indicator(p), s, t);
  }

  // ---- integer sums ----

  function Total<T>(f: T -> int, s: seq<T>): int {
    if s == [] then 0 else Total(f, s[..|s| - 1]) + f(s[|s| - 1])
  }

  lemma {:induction false} TotalUpdate<T>(f: T -> int, s: seq<T>, i: nat, x: T)
    requires i < |s|
    ensures Total(f, s[i := x]) == Total(f, s) - f(s[i]) + f(x)
  {
    var n := |s| - 1;
    if i < n {
      assert s[i := x][..n] == s[..n][i := x];
      TotalUpdate(f, s[..n], i, x);
    } else {
      assert s[i := x][..n] == s[..n];
    }
  }

  lemma TotalAppend<T>(f: T -> int, s: seq<T>, x: T)
    ensures Total(f, s + [x]) == Total(f, s) + f(x)
  {
    assert (s + [x])[..|s|] == s;
  }

  lemma {:induction false} TotalNonNegative<T>(f: T -> int, s: seq<T>)
    requires forall x :: f(x) >= 0
    ensures Total(f, s) >= 0
  {
    if s != [] { TotalNonNegative(f, s[..|s| - 1]); }
  }

  function AsReal<T>(f: T -> int): T -> real { (x: T) => f(x) as real }

  lemma {:induction false} TotalIsSum<T>(f: T -> int, s: seq<T>)
    ensures Total(f, s) as real == Sum(AsReal(f), s)
  {
    if s != [] {
      var n := |s| - 1;
      TotalIsSum(f, s[..n]);
      SumAppend(AsReal(f), s[..n], [s[n]]);
      assert s == s[..n] + [s[n]];
    }
  }

  lemma TotalPermutation<T>(f: T -> int, s: seq<T>, t: seq<T>)
    requires multiset(s) == multiset(t)
    ensures Total(f, s) == Total(f, t)
  {
    TotalIsSum(f, s);
    TotalIsSum(f, t);
    SumPermutation(AsReal(f), s, t);
  }

  // ---- sizes of sets ----

  lemma SubsetSize<T>(a: set<T>, b: set<T>)
    requires a <= b
    ensures |b| == |a| + |b - a|
  {
    assert b == a + (b - a);
  }
}
