/** Sums, means and order of real numbers, shared by the filters, the averages and the sweeps. */
module Means {

  function Sum(s: seq<real>): real {
    if s == [] then 0.0 else s[0] + Sum(s[1..])
  }

  function Mean(s: seq<real>): real
    requires s != []
  {
    Sum(s) / |s| as real
  }

  ghost predicate Within(s: seq<real>, lo: real, hi: real) { forall k :: 0 <= k < |s| ==> lo <= s[k] <= hi }

  lemma {:induction false} SumAppend(s: seq<real>, x: real)
    ensures Sum(s + [x]) == Sum(s) + x
  {
    if s == [] {
      assert [] + [x] == [x];
    } else {
      assert (s + [x])[1..] == s[1..] + [x];
      SumAppend(s[1..], x);
    }
  }

  lemma {:induction false} SumWithin(s: seq<real>, lo: real, hi: real)
    requires Within(s, lo, hi)
    ensures lo * |s| as real <= Sum(s) <= hi * |s| as real
  {
    if s != [] {
      SumWithin(s[1..], lo, hi);
      OneMore(lo, |s| - 1);
      OneMore(hi, |s| - 1);
    }
  }

  lemma OneMore(x: real, n: nat)
    ensures x * (n + 1) as real == x * n as real + x
  {
  }

  lemma Scaled(a: real, b: real, n: real)
    requires n > 0.0 && a < b
    ensures a * n < b * n
  {
  }

  lemma QuotientBetween(a: real, n: real, lo: real, hi: real)
    requires n > 0.0 && lo * n <= a <= hi * n
    ensures lo <= a / n <= hi
  {
    var q := a / n;
    assert q * n == a;
    if q < lo { Scaled(q, lo, n); }
    if q > hi { Scaled(hi, q, n); }
  }

  lemma QuotientMonotone(a: real, b: real, n: real)
    requires n > 0.0 && a <= b
    ensures a / n <= b / n
  {
    var p, q := a / n, b / n;
    assert p * n == a && q * n == b;
    if q < p { Scaled(q, p, n); }
  }

  /** A mean lies between any bounds of its numbers. */
  lemma MeanWithin(s: seq<real>, lo: real, hi: real)
    requires s != [] && Within(s, lo, hi)
    ensures lo <= Mean(s) <= hi
  {
    SumWithin(s, lo, hi);
    QuotientBetween(Sum(s), |s| as real, lo, hi);
  }

  predicate Below(s: seq<real>, t: seq<real>) { |s| == |t| && forall k :: 0 <= k < |s| ==> s[k] <= t[k] }

  lemma {:induction false} SumMonotone(s: seq<real>, t: seq<real>)
    requires Below(s, t)
    ensures Sum(s) <= Sum(t)
  {
    if s != [] { SumMonotone(s[1..], t[1..]); }
  }

  lemma MeanMonotone(s: seq<real>, t: seq<real>)
    requires Below(s, t) && s != []
    ensures Mean(s) <= Mean(t)
  {
    SumMonotone(s, t);
    QuotientMonotone(Sum(s), Sum(t), |s| as real);
  }
}
