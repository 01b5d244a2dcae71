/** Finite sums of real-valued terms over a sequence, and the algebra the trace proofs need. */
module Sums {

  function SumOver<T>(s: seq<T>, f: T -> real): real {
    if s == [] then 0.0 else SumOver(s[..|s| - 1], f) + f(s[|s| - 1])
  }

  function Min(a: real, b: real): real { if a <= b then a else b }

  function Max(a: real, b: real): real { if a <= b then b else a }

  // Products and quotients under names of their own: the proofs below combine them by name.

  function Scale(c: real, a: real): real { c * a }

  function Ratio(a: real, b: real): real
    requires b > 0.0
  {
    a / b
  }

  lemma ScaleSum(c: real, a: real, b: real)
    ensures Scale(c, a + b) == Scale(c, a) + Scale(c, b)
  {
  }

  lemma ScaleZero(c: real)
    ensures Scale(c, 0.0) == 0.0
  {
  }

  lemma ScaleNonNegative(c: real, a: real)
    requires c >= 0.0 && a >= 0.0
    ensures Scale(c, a) >= 0.0
  {
  }

  lemma ScalePositive(c: real, a: real)
    requires c > 0.0 && a > 0.0
    ensures Scale(c, a) > 0.0
  {
  }

  lemma ScaleMonotone(c: real, a: real, b: real)
    requires c >= 0.0 && a <= b
    ensures Scale(c, a) <= Scale(c, b)
  {
  }

  lemma ScaleCommutes(a: real, b: real)
    ensures Scale(a, b) == Scale(b, a)
  {
  }

  lemma RatioPositive(a: real, b: real)
    requires a > 0.0 && b > 0.0
    ensures Ratio(a, b) > 0.0
  {
  }

  lemma RatioTimes(a: real, b: real)
    requires b > 0.0
    ensures Scale(Ratio(a, b), b) == a
    ensures Scale(b, Ratio(a, b)) == a
  {
  }

  lemma RatioUnique(a: real, b: real, x: real)
    requires b > 0.0 && x * b == a
    ensures Ratio(a, b) == x
  {
  }

  /** A fraction of one factor is the same fraction of the product. */
  lemma ScaleRatio(a: real, d: real, b: real)
    requires b > 0.0
    ensures Scale(a, Ratio(d, b)) == Scale(Ratio(a, b), d)
  {
    var x, y := Ratio(d, b), Ratio(a, b);
    assert d == x * b && a == y * b;
    assert a * x == y * b * x;
    assert y * d == y * (x * b);
  }

  lemma ScaleSwap(a: real, u: real, v: real)
    ensures Scale(v, Scale(a, u)) == Scale(u, Scale(a, v))
  {
  }

  lemma {:induction false} SumCongruence<T>(s: seq<T>, f: T -> real, g: T -> real)
    requires forall x | x in s :: f(x) == g(x)
    ensures SumOver(s, f) == SumOver(s, g)
  {
    if s != [] { SumCongruence(s[..|s| - 1], f, g); }
  }

  lemma {:induction false} SumBound<T>(s: seq<T>, f: T -> real, g: T -> real)
    requires forall x | x in s :: f(x) <= g(x)
    ensures SumOver(s, f) <= SumOver(s, g)
  {
    if s != [] { SumBound(s[..|s| - 1], f, g); }
  }

  lemma {:induction false} SumAdd<T>(s: seq<T>, f: T -> real, g: T -> real, h: T -> real)
    requires forall x | x in s :: h(x) == f(x) + g(x)
    ensures SumOver(s, h) == SumOver(s, f) + SumOver(s, g)
  {
    if s != [] { SumAdd(s[..|s| - 1], f, g, h); }
  }

  lemma {:induction false} SumScale<T>(s: seq<T>, c: real, f: T -> real, h: T -> real)
    requires forall x | x in s :: h(x) == Scale(c, f(x))
    ensures SumOver(s, h) == Scale(c, SumOver(s, f))
  {
    if s != [] { SumScale(s[..|s| - 1], c, f, h); }
  }

  lemma {:induction false} SumZero<T>(s: seq<T>, f: T -> real)
    requires forall x | x in s :: f(x) == 0.0
    ensures SumOver(s, f) == 0.0
  {
    if s != [] { SumZero(s[..|s| - 1], f); }
  }

  lemma {:induction false} SumNonNegative<T>(s: seq<T>, f: T -> real)
    requires forall x | x in s :: f(x) >= 0.0
    ensures SumOver(s, f) >= 0.0
  {
    if s != [] { SumNonNegative(s[..|s| - 1], f); }
  }

  /** One term of a sum of non-negative terms is at most the sum. */
  lemma {:induction false} SumMember<T>(s: seq<T>, x: T, f: T -> real)
    requires x in s
    requires forall y | y in s :: f(y) >= 0.0
    ensures f(x) <= SumOver(s, f)
  {
    var init := s[..|s| - 1];
    SumNonNegative(init, f);
    if s[|s| - 1] != x { SumMember(init, x, f); }
  }

  lemma SumSnoc<T>(s: seq<T>, x: T, f: T -> real)
    ensures SumOver(s + [x], f) == SumOver(s, f) + f(x)
  {
    assert (s + [x])[..|s|] == s;
  }

  lemma {:induction false} SumAppend<T>(s: seq<T>, t: seq<T>, f: T -> real)
    ensures SumOver(s + t, f) == SumOver(s, f) + SumOver(t, f)
  {
    if t == [] {
      assert s + t == s;
    } else {
      SumAppend(s, t[..|t| - 1], f);
      assert (s + t)[..|s + t| - 1] == s + t[..|t| - 1];
    }
  }

  /** A sum does not depend on the order of its terms. */
  lemma {:induction false} SumPermutation<T>(s: seq<T>, t: seq<T>, f: T -> real)
    requires multiset(s) == multiset(t)
    ensures SumOver(s, f) == SumOver(t, f)
  {
    if s == [] {
      assert |multiset(t)| == |t|;
    } else {
      var x := s[|s| - 1];
      assert x in multiset(t);
      var i :| 0 <= i < |t| && t[i] == x;
      var rest := t[..i] + t[i + 1..];
      assert t == t[..i] + [x] + t[i + 1..];
      assert s == s[..|s| - 1] + [x];
      assert multiset(rest) == multiset(t) - multiset{x};
      assert multiset(s[..|s| - 1]) == multiset(s) - multiset{x};
      SumPermutation(s[..|s| - 1], rest, f);
      SumAppend(t[..i], t[i + 1..], f);
      SumAppend(t[..i] + [x], t[i + 1..], f);
      SumAppend(t[..i], [x], f);
      assert [x][..0] == [];
    }
  }
}
