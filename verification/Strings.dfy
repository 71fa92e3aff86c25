/** The order in which strings are compared, and decimal numerals. */
module Strings {

  predicate LexLess(a: string, b: string) {
    b != [] && (a == [] || a[0] < b[0] || (a[0] == b[0] && LexLess(a[1..], b[1..])))
  }

  lemma {:induction false} LexIrreflexive(a: string)
    ensures !LexLess(a, a)
  {
    if a != [] { LexIrreflexive(a[1..]); }
  }

  lemma {:induction false} LexTotal(a: string, b: string)
    requires a != b
    ensures LexLess(a, b) || LexLess(b, a)
  {
    if a != [] && b != [] && a[0] == b[0] {
      assert a == [a[0]] + a[1..] && b == [b[0]] + b[1..];
      LexTotal(a[1..], b[1..]);
    }
  }

  lemma {:induction false} LexTransitive(a: string, b: string, c: string)
    requires LexLess(a, b) && LexLess(b, c)
    ensures LexLess(a, c)
  {
    if a != [] && a[0] == b[0] && b[0] == c[0] {
      LexTransitive(a[1..], b[1..], c[1..]);
    }
  }

  /** `str(n)` for a non-negative integer. */
  function Decimal(n: nat): (s: string)
    ensures s != []
  {
    if n < 10 then [Digit(n)] else Decimal(n / 10) + [Digit(n % 10)]
  }

  function Digit(d: nat): (c: char)
    requires d < 10
    ensures c as int == '0' as int + d
  {
    ('0' as int + d) as char
  }

  lemma {:induction false} DecimalInjective(m: nat, n: nat)
    requires Decimal(m) == Decimal(n)
    ensures m == n
  {
    var s := Decimal(m);
    assert s[|s| - 1] == Digit(m % 10) && s[|s| - 1] == Digit(n % 10);
    assert m % 10 == n % 10;
    if m >= 10 && n >= 10 {
      assert s[..|s| - 1] == Decimal(m / 10) && s[..|s| - 1] == Decimal(n / 10);
      DecimalInjective(m / 10, n / 10);
    }
  }

  /** The strings agree up to `k`, and there the first ends or has the smaller character. */
  ghost predicate SmallerAt(a: string, b: string, k: nat) {
    k < |b| && k <= |a| && a[..k] == b[..k] && (k == |a| || a[k] < b[k])
  }

  /** The order is that of the first difference. */
  lemma {:induction false} LexLessIff(a: string, b: string)
    ensures LexLess(a, b) <==> exists k: nat :: SmallerAt(a, b, k)
  {
    if a == [] {
      assert b != [] ==> SmallerAt(a, b, 0);
    } else if b != [] && a[0] == b[0] {
      LexLessIff(a[1..], b[1..]);
      if k: nat :| SmallerAt(a[1..], b[1..], k) {
        assert a[..k + 1] == [a[0]] + a[1..][..k] && b[..k + 1] == [b[0]] + b[1..][..k];
        assert SmallerAt(a, b, k + 1);
      }
      if k: nat :| SmallerAt(a, b, k) {
        assert k > 0 && a[1..][..k - 1] == a[..k][1..] && b[1..][..k - 1] == b[..k][1..];
        assert SmallerAt(a[1..], b[1..], k - 1);
      }
    } else if b != [] {
      if a[0] < b[0] { assert SmallerAt(a, b, 0); }
    }
  }

  ghost predicate Digits(s: string) { forall i | 0 <= i < |s| :: '0' <= s[i] <= '9' }

  /** The number that a numeral denotes. */
  function Value(s: string): nat
    requires Digits(s)
  {
    if s == [] then 0 else 10 * Value(s[..|s| - 1]) + (s[|s| - 1] as int - '0' as int)
  }

  /** Numerals are read back, and have no leading zero. */
  lemma {:induction false} DecimalDenotes(n: nat)
    ensures Digits(Decimal(n)) && Value(Decimal(n)) == n && (|Decimal(n)| > 1 ==> Decimal(n)[0] != '0')
  {
    if n < 10 {
      assert [Digit(n)][..0] == [];
    } else {
      DecimalDenotes(n / 10);
      var front := Decimal(n / 10);
      assert Decimal(n)[..|front|] == front;
      if |front| == 1 { assert front == [front[0]] && Value([]) == 0 && front[..0] == []; }
    }
  }
}
