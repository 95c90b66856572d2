/**
 * Exact real arithmetic on the numpy vectors of bin/infocalc.py: element-wise
 * products, sums, means and maxima. A vector of length K is a `seq<real>`.
 */
module Vectors {

  /** `v.sum()`. */
  function Sum(v: seq<real>): real
  {
    if v == [] then 0.0 else Sum(v[..|v| - 1]) + v[|v| - 1]
  }

  /** `v.mean()` of a non-empty vector. */
  function Mean(v: seq<real>): real
    requires |v| > 0
  {
    Sum(v) / |v| as real
  }

  /** `a * b`, element by element. */
  function Mul(a: seq<real>, b: seq<real>): (r: seq<real>)
    requires |a| == |b|
    ensures |r| == |a| && forall i :: 0 <= i < |a| ==> r[i] == a[i] * b[i]
  {
    seq(|a|, i requires 0 <= i < |a| => a[i] * b[i])
  }

  /** `1.0 - v`, the frequencies of the other allele. */
  function Complement(v: seq<real>): (r: seq<real>)
    ensures |r| == |v| && forall i :: 0 <= i < |v| ==> r[i] == 1.0 - v[i]
  {
    seq(|v|, i requires 0 <= i < |v| => 1.0 - v[i])
  }

  /** `np.full(k, c)`. */
  function Constant(k: nat, c: real): (r: seq<real>)
    ensures |r| == k && forall i :: 0 <= i < k ==> r[i] == c
  {
    seq(k, i => c)
  }

  /** `v.max()` of a non-empty vector. */
  function Max(v: seq<real>): real
    requires |v| > 0
  {
    if |v| == 1 then v[0]
    else
      var m0 := Max(v[..|v| - 1]);
      if m0 >= v[|v| - 1] then m0 else v[|v| - 1]
  }

  /** The maximum is an entry of `v` that no entry exceeds. */
  lemma {:induction false} MaxIsMaximum(v: seq<real>)
    requires |v| > 0
    ensures exists i :: 0 <= i < |v| && v[i] == Max(v)
    ensures forall i :: 0 <= i < |v| ==> v[i] <= Max(v)
  {
    if |v| > 1 {
      var n := |v| - 1;
      MaxIsMaximum(v[..n]);
      assert forall i :: 0 <= i < n ==> v[..n][i] == v[i];
      if Max(v[..n]) >= v[n] {
        var i :| 0 <= i < n && v[..n][i] == Max(v[..n]);
        assert v[i] == Max(v);
      } else {
        assert v[n] == Max(v);
      }
    } else {
      assert v[0] == Max(v);
    }
  }

  predicate NonNegative(v: seq<real>) {
    forall i :: 0 <= i < |v| ==> 0.0 <= v[i]
  }

  predicate InUnitRange(v: seq<real>) {
    forall i :: 0 <= i < |v| ==> 0.0 <= v[i] <= 1.0
  }

  /** A probability vector: non-negative entries summing to 1. */
  predicate IsDistribution(q: seq<real>) {
    NonNegative(q) && Sum(q) == 1.0
  }

  lemma SumPrefix(v: seq<real>, i: nat)
    requires i < |v|
    ensures Sum(v[..i + 1]) == Sum(v[..i]) + v[i]
  {
    assert v[..i + 1][..i] == v[..i];
  }

  /** Sums are additive over element-wise addition. */
  lemma {:induction false} SumAdd(a: seq<real>, b: seq<real>, c: seq<real>)
    requires |a| == |b| == |c|
    requires forall i :: 0 <= i < |a| ==> c[i] == a[i] + b[i]
    ensures Sum(c) == Sum(a) + Sum(b)
  {
    if a != [] {
      var n := |a| - 1;
      SumAdd(a[..n], b[..n], c[..n]);
    }
  }

  /** Sums are monotone in each entry. */
  lemma {:induction false} SumMonotone(a: seq<real>, b: seq<real>)
    requires |a| == |b|
    requires forall i :: 0 <= i < |a| ==> a[i] <= b[i]
    ensures Sum(a) <= Sum(b)
  {
    if a != [] {
      var n := |a| - 1;
      SumMonotone(a[..n], b[..n]);
    }
  }

  /** Dividing every entry by t divides the sum by t. */
  lemma {:induction false} SumScale(a: seq<real>, t: real, b: seq<real>)
    requires t != 0.0
    requires |a| == |b|
    requires forall i :: 0 <= i < |a| ==> b[i] == a[i] / t
    ensures Sum(b) == Sum(a) / t
  {
    if a != [] {
      var n := |a| - 1;
      SumScale(a[..n], t, b[..n]);
      assert Sum(b) == Sum(a[..n]) / t + a[n] / t;
    }
  }

  lemma {:induction false} SumConstant(k: nat, c: real)
    ensures Sum(Constant(k, c)) == k as real * c
  {
    if k > 0 {
      SumConstant(k - 1, c);
      assert Constant(k, c)[..k - 1] == Constant(k - 1, c);
    }
  }

  lemma {:induction false} SumNonNegative(v: seq<real>)
    requires NonNegative(v)
    ensures Sum(v) >= 0.0
  {
    if v != [] {
      SumNonNegative(v[..|v| - 1]);
    }
  }

  /** The largest entry of a non-negative vector is at most its sum. */
  lemma {:induction false} MaxAtMostSum(v: seq<real>)
    requires |v| > 0 && NonNegative(v)
    ensures Max(v) <= Sum(v)
  {
    if |v| > 1 {
      var n := |v| - 1;
      MaxAtMostSum(v[..n]);
      SumNonNegative(v[..n]);
    } else {
      assert Sum(v) == Sum(v[..0]) + v[0];
    }
  }

  /** `Sum(1 - v) == K - Sum(v)`. */
  lemma {:induction false} SumComplement(v: seq<real>)
    ensures Sum(Complement(v)) == |v| as real - Sum(v)
  {
    if v != [] {
      var n := |v| - 1;
      SumComplement(v[..n]);
      assert Complement(v)[..n] == Complement(v[..n]);
    }
  }

  /** The mean of the other allele is one minus the mean of this one. */
  lemma MeanComplement(v: seq<real>)
    requires |v| > 0
    ensures Mean(Complement(v)) == 1.0 - Mean(v)
  {
    SumComplement(v);
    var k := |v| as real;
    assert k > 0.0;
    assert (k - Sum(v)) / k == k / k - Sum(v) / k;
    assert k / k == 1.0;
  }

  /** Every entry equal to c: the sum is K·c. */
  lemma AllEqualSum(v: seq<real>, c: real)
    requires forall i :: 0 <= i < |v| ==> v[i] == c
    ensures Sum(v) == |v| as real * c
  {
    assert v == Constant(|v|, c);
    SumConstant(|v|, c);
  }

  /** The mean of a constant vector is that constant. */
  lemma MeanOfConstant(v: seq<real>, c: real)
    requires |v| > 0
    requires forall i :: 0 <= i < |v| ==> v[i] == c
    ensures Mean(v) == c
  {
    AllEqualSum(v, c);
    CancelDivision(|v| as real, c);
  }

  lemma CancelDivision(n: real, c: real)
    requires n > 0.0
    ensures (n * c) / n == c
  {
  }
}
