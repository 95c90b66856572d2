/**
 * The locus-informativeness engine of bin/infocalc.py (Rosenberg et al. 2003):
 * informativeness for assignment In (eq. 4), informativeness for ancestry
 * coefficients Ia (eq. 14) and the diploid optimal rate of correct
 * assignment ORCA (eq. 12 with one locus), plus the prior estimator and the
 * per-locus loop of `main`.
 *
 * Arithmetic is exact (`real`). The natural logarithm is not expressible over
 * Dafny's reals, so every statistic takes it as a parameter `log`; nothing
 * here depends on what `log` computes except In and Ia themselves.
 */
module Infocalc {
  import opened Wrappers
  import opened Vectors
  import opened Combinatorics

  /** Ia is computed only for at most this many clusters; beyond it Ia is NaN. */
  const MaxIaClusters: nat := 24

  /** The value written for Ia when a denominator vanishes. */
  const DegenerateSentinel: real := -9999.0

  /**
   * The three outcomes of `Ia_locus_uniform`: NaN for too many clusters,
   * −9999 for a vanishing denominator, or a number.
   */
  datatype IaResult = Unsupported | Degenerate | Value(ia: real)

  /** A cell of the output table: NaN or a number. */
  datatype Reported = NaN | Number(x: real)

  /** The legacy encoding the output table uses for an Ia result. */
  function ReportIa(r: IaResult): Reported
  {
    match r
    case Unsupported => NaN
    case Degenerate => Number(DegenerateSentinel)
    case Value(x) => Number(x)
  }

  // ------------------------------------------------------- In (eq. 4)

  /** `(q * a * np.log(a, where=a > 0)).sum()`: clusters where a is 0 add nothing. */
  function LogTerms(a: seq<real>, q: seq<real>, log: real -> real): real
    requires |a| == |q|
  {
    Sum(seq(|a|, i requires 0 <= i < |a| => if a[i] > 0.0 then q[i] * a[i] * log(a[i]) else 0.0))
  }

  /** One allele's contribution to In: nothing when its prior-weighted mean is 0 or 1. */
  function AlleleIn(a: seq<real>, q: seq<real>, log: real -> real): real
    requires |a| == |q|
  {
    var pBar := Sum(Mul(q, a));
    if pBar == 0.0 || pBar == 1.0 then 0.0
    else LogTerms(a, q, log) - pBar * log(pBar)
  }

  /** The two alleles of a locus: g = 0 is the reference allele `p`, g = 1 the alternate `1 - p`. */
  function Allele(p: seq<real>, g: nat): (a: seq<real>)
    ensures |a| == |p|
  {
    if g == 0 then p else Complement(p)
  }

  /** The contributions of the first g alleles, added in order. */
  function InUpTo(p: seq<real>, q: seq<real>, log: real -> real, g: nat): real
    requires |p| == |q| && g <= 2
  {
    if g == 0 then 0.0 else InUpTo(p, q, log, g - 1) + AlleleIn(Allele(p, g - 1), q, log)
  }

  /** In for one locus: the reference and the alternate allele. */
  function In(p: seq<real>, q: seq<real>, log: real -> real): real
    requires |p| == |q|
  {
    InUpTo(p, q, log, 2)
  }

  /** `In_locus(p_vec, q)`: the loop over the two alleles. */
  method InLocus(p: seq<real>, q: seq<real>, log: real -> real) returns (info: real)
    requires |p| == |q|
    ensures info == In(p, q, log)
  {
    info := 0.0;
    for g := 0 to 2
      invariant info == InUpTo(p, q, log, g)
    {
      var allele := Allele(p, g);
      var pBar := Sum(Mul(q, allele));
      assert InUpTo(p, q, log, g + 1) == info + AlleleIn(allele, q, log);
      if pBar == 0.0 || pBar == 1.0 {
        continue;
      }
      var drop := pBar * log(pBar);
      var terms := LogTerms(allele, q, log);
      assert AlleleIn(allele, q, log) == terms - drop;
      info := info - drop;
      info := info + terms;
    }
  }

  /** A monomorphic locus: every cluster has frequency 0, or every cluster has frequency 1. */
  predicate Monomorphic(p: seq<real>) {
    (forall i :: 0 <= i < |p| ==> p[i] == 0.0) || (forall i :: 0 <= i < |p| ==> p[i] == 1.0)
  }

  lemma WeightedMeanOfZeros(a: seq<real>, q: seq<real>)
    requires |a| == |q|
    requires forall i :: 0 <= i < |a| ==> a[i] == 0.0
    ensures Sum(Mul(q, a)) == 0.0
  {
    var m := Mul(q, a);
    forall i | 0 <= i < |m| ensures m[i] == 0.0 {
      assert m[i] == q[i] * a[i];
    }
    AllEqualSum(m, 0.0);
  }

  lemma WeightedMeanOfOnes(a: seq<real>, q: seq<real>)
    requires |a| == |q|
    requires forall i :: 0 <= i < |a| ==> a[i] == 1.0
    ensures Sum(Mul(q, a)) == Sum(q)
  {
    var m := Mul(q, a);
    forall i | 0 <= i < |m| ensures m[i] == q[i] {
      assert m[i] == q[i] * a[i];
    }
    assert m == q;
  }

  /** Both alleles of a monomorphic locus are skipped, so In is 0 (for a prior summing to 1). */
  lemma InMonomorphic(p: seq<real>, q: seq<real>, log: real -> real)
    requires |p| == |q| && Sum(q) == 1.0
    requires Monomorphic(p)
    ensures In(p, q, log) == 0.0
  {
    var c := Complement(p);
    if forall i :: 0 <= i < |p| ==> p[i] == 0.0 {
      WeightedMeanOfZeros(p, q);
      WeightedMeanOfOnes(c, q);
    } else {
      WeightedMeanOfOnes(p, q);
      WeightedMeanOfZeros(c, q);
    }
    assert InUpTo(p, q, log, 1) == 0.0 + AlleleIn(p, q, log);
  }

  // ------------------------------------------------------ Ia (eq. 14)

  /** `x ** n` for a natural exponent. */
  function Pow(x: real, n: nat): real
  {
    if n == 0 then 1.0 else x * Pow(x, n - 1)
  }

  /** `np.prod([a[i] - a[r] for r in range(n) if r != i])`, which is 1 for an empty list. */
  function ProdDiffs(a: seq<real>, i: nat, n: nat): real
    requires i < |a| && n <= |a|
  {
    if n == 0 then 1.0
    else ProdDiffs(a, i, n - 1) * (if n - 1 == i then 1.0 else a[i] - a[n - 1])
  }

  /** `K * np.prod([p_i - p_r for r != i])`. */
  function Denominator(a: seq<real>, i: nat): real
    requires i < |a|
  {
    |a| as real * ProdDiffs(a, i, |a|)
  }

  /** `(p_i ** K) * log(p_i) / denom`. */
  function Term(a: seq<real>, i: nat, log: real -> real): real
    requires i < |a| && Denominator(a, i) != 0.0
  {
    Pow(a[i], |a|) * log(a[i]) / Denominator(a, i)
  }

  /**
   * The per-cluster terms of the first n clusters, skipping clusters with
   * frequency 0; None once a denominator is 0.
   */
  function ClusterTerms(a: seq<real>, n: nat, log: real -> real): Option<real>
    requires n <= |a|
  {
    if n == 0 then Some(0.0)
    else
      match ClusterTerms(a, n - 1, log)
      case None => None
      case Some(t) =>
        if a[n - 1] == 0.0 then Some(t)
        else if Denominator(a, n - 1) == 0.0 then None
        else Some(t + Term(a, n - 1, log))
  }

  /** `S / Kfac` with S = |s(K − 1, 2)| and Kfac = K!. */
  function Bias(k: nat): real
    requires k >= 1
  {
    Stirling(k - 1, 2) as real / Factorial(k) as real
  }

  /** One allele's contribution to Ia: nothing when its plain mean is 0 or 1. */
  function AlleleIa(a: seq<real>, bias: real, log: real -> real): Option<real>
    requires |a| > 0
  {
    var pj := Mean(a);
    if pj == 0.0 || pj == 1.0 then Some(0.0)
    else
      match ClusterTerms(a, |a|, log)
      case None => None
      case Some(t) => Some(pj * (1.0 - log(pj) - bias) + t)
  }

  /** The contributions of the first g alleles, added in order; None once one of them is degenerate. */
  function IaUpTo(p: seq<real>, bias: real, log: real -> real, g: nat): Option<real>
    requires |p| > 0 && g <= 2
  {
    if g == 0 then Some(0.0)
    else
      match IaUpTo(p, bias, log, g - 1)
      case None => None
      case Some(t) =>
        match AlleleIa(Allele(p, g - 1), bias, log)
        case None => None
        case Some(x) => Some(t + x)
  }

  /** Ia for one locus under the uniform prior. */
  function Ia(p: seq<real>, log: real -> real): IaResult
    requires |p| >= 1
  {
    if |p| > MaxIaClusters then Unsupported
    else
      match IaUpTo(p, Bias(|p|), log, 2)
      case None => Degenerate
      case Some(x) => Value(x)
  }

  /** Ia unfolded: degenerate if either allele is, otherwise the two contributions added. */
  lemma IaUnfold(p: seq<real>, bias: real, log: real -> real)
    requires |p| > 0
    ensures IaUpTo(p, bias, log, 2).None? <==>
      AlleleIa(p, bias, log).None? || AlleleIa(Complement(p), bias, log).None?
    ensures AlleleIa(p, bias, log).Some? && AlleleIa(Complement(p), bias, log).Some? ==>
      IaUpTo(p, bias, log, 2) == Some(AlleleIa(p, bias, log).value + AlleleIa(Complement(p), bias, log).value)
  {
    assert IaUpTo(p, bias, log, 1) == (match AlleleIa(p, bias, log) case None => None case Some(x) => Some(0.0 + x));
  }

  lemma {:induction false} ClusterTermsStaysNone(a: seq<real>, n: nat, m: nat, log: real -> real)
    requires n <= m <= |a|
    requires ClusterTerms(a, n, log).None?
    ensures ClusterTerms(a, m, log).None?
    decreases m - n
  {
    if n < m {
      ClusterTermsStaysNone(a, n + 1, m, log);
    }
  }

  lemma IaStaysNone(p: seq<real>, bias: real, log: real -> real, g: nat)
    requires |p| > 0 && g <= 2
    requires IaUpTo(p, bias, log, g).None?
    ensures IaUpTo(p, bias, log, 2).None?
  {
    if g == 0 {
      assert false;
    } else if g == 1 {
      assert IaUpTo(p, bias, log, 2).None?;
    }
  }

  /**
   * The inner loop of `Ia_locus_uniform` over the clusters of one allele:
   * the sum of the per-cluster terms, or None at the first zero denominator.
   */
  method ClusterSum(a: seq<real>, log: real -> real) returns (t: Option<real>)
    requires |a| >= 1
    ensures t == ClusterTerms(a, |a|, log)
  {
    var k := |a|;
    var sum := 0.0;
    for i := 0 to k
      invariant ClusterTerms(a, i, log) == Some(sum)
    {
      var x := a[i];
      if x == 0.0 {
        continue;
      }
      var denom := k as real * ProdDiffs(a, i, k);
      if denom == 0.0 {
        ClusterTermsStaysNone(a, i + 1, k, log);
        return None;
      }
      assert denom == Denominator(a, i);
      assert Term(a, i, log) == Pow(x, k) * log(x) / denom;
      sum := sum + Pow(x, k) * log(x) / denom;
    }
    return Some(sum);
  }

  /**
   * The body of the allele loop of `Ia_locus_uniform`: skip an allele whose
   * mean is 0 or 1, otherwise its mean term plus the cluster terms, or None
   * at a zero denominator.
   */
  method AlleleContribution(a: seq<real>, bias: real, log: real -> real) returns (r: Option<real>)
    requires |a| >= 1
    ensures r == AlleleIa(a, bias, log)
  {
    var pj := Mean(a);
    if pj == 0.0 || pj == 1.0 {
      return Some(0.0);
    }
    var terms := ClusterSum(a, log);
    if terms.None? {
      return None;
    }
    return Some(pj * (1.0 - log(pj) - bias) + terms.value);
  }

  /**
   * `Ia_locus_uniform(p_vec)`: NaN for K > 24 before any frequency is read;
   * otherwise the loop over both alleles, returning −9999 the moment a
   * denominator is 0 and dropping what was summed so far.
   */
  method IaLocusUniform(p: seq<real>, log: real -> real) returns (r: IaResult)
    requires |p| >= 1
    ensures r == Ia(p, log)
    ensures |p| > MaxIaClusters ==> r == Unsupported
  {
    var k := |p|;
    if k > MaxIaClusters {
      return Unsupported;
    }
    var s := UnsignedStirlingFirst(k - 1, 2);
    var kFac := Factorial(k);
    var bias := s as real / kFac as real;
    assert bias == Bias(k);
    var ia := 0.0;
    for g := 0 to 2
      invariant IaUpTo(p, bias, log, g) == Some(ia)
    {
      var contribution := AlleleContribution(Allele(p, g), bias, log);
      if contribution.None? {
        IaStaysNone(p, bias, log, g + 1);
        return Degenerate;
      }
      ia := ia + contribution.value;
    }
    return Value(ia);
  }

  /** Two clusters share a frequency at this locus. */
  predicate HasTie(a: seq<real>) {
    exists i, r :: 0 <= i < |a| && 0 <= r < |a| && i != r && a[i] == a[r]
  }

  /** A non-zero frequency of this allele is shared with another cluster. */
  predicate NonzeroTie(a: seq<real>) {
    exists i, r :: 0 <= i < |a| && 0 <= r < |a| && i != r && a[i] != 0.0 && a[i] == a[r]
  }

  /** Neither allele is skipped: the plain mean frequency is neither 0 nor 1. */
  predicate Polymorphic(p: seq<real>)
    requires |p| > 0
  {
    Mean(p) != 0.0 && Mean(p) != 1.0
  }

  /** The product of differences vanishes exactly when another cluster has the same frequency. */
  lemma {:induction false} ProdDiffsZero(a: seq<real>, i: nat, n: nat)
    requires i < |a| && n <= |a|
    ensures ProdDiffs(a, i, n) == 0.0 <==> exists r :: 0 <= r < n && r != i && a[r] == a[i]
  {
    if n > 0 {
      ProdDiffsZero(a, i, n - 1);
      var f := if n - 1 == i then 1.0 else a[i] - a[n - 1];
      assert ProdDiffs(a, i, n) == ProdDiffs(a, i, n - 1) * f;
      assert ProdDiffs(a, i, n - 1) * f == 0.0 <==> ProdDiffs(a, i, n - 1) == 0.0 || f == 0.0;
    }
  }

  /** The cluster loop meets a zero denominator exactly when a non-zero frequency is tied. */
  lemma {:induction false} ClusterTermsNone(a: seq<real>, n: nat, log: real -> real)
    requires 1 <= |a| && n <= |a|
    ensures ClusterTerms(a, n, log).None? <==>
      exists i, r :: 0 <= i < n && 0 <= r < |a| && i != r && a[i] != 0.0 && a[i] == a[r]
  {
    if n > 0 {
      ClusterTermsNone(a, n - 1, log);
      ProdDiffsZero(a, n - 1, |a|);
      assert Denominator(a, n - 1) == 0.0 <==> ProdDiffs(a, n - 1, |a|) == 0.0;
      if ClusterTerms(a, n, log).None? && ClusterTerms(a, n - 1, log).Some? {
        var r :| 0 <= r < |a| && r != n - 1 && a[r] == a[n - 1];
        assert a[n - 1] != 0.0;
      }
    }
  }

  lemma AlleleIaNone(a: seq<real>, bias: real, log: real -> real)
    requires |a| > 0
    ensures AlleleIa(a, bias, log).None? <==> Polymorphic(a) && NonzeroTie(a)
  {
    ClusterTermsNone(a, |a|, log);
  }

  /** A tie is non-zero for the reference allele or for the alternate allele. */
  lemma TieOnSomeAllele(p: seq<real>)
    ensures HasTie(p) <==> NonzeroTie(p) || NonzeroTie(Complement(p))
  {
    var c := Complement(p);
    if HasTie(p) {
      var i, r :| 0 <= i < |p| && 0 <= r < |p| && i != r && p[i] == p[r];
      if p[i] == 0.0 {
        assert c[i] == 1.0 && c[i] == c[r];
      }
    }
    if NonzeroTie(c) {
      var i, r :| 0 <= i < |c| && 0 <= r < |c| && i != r && c[i] != 0.0 && c[i] == c[r];
      assert p[i] == p[r];
    }
  }

  lemma PolymorphicComplement(p: seq<real>)
    requires |p| > 0
    ensures Polymorphic(Complement(p)) <==> Polymorphic(p)
  {
    MeanComplement(p);
  }

  /**
   * For K <= 24, Ia is −9999 exactly when the locus is polymorphic and two
   * clusters share a frequency: a tie at a non-zero frequency stops the
   * reference allele, a tie at frequency 0 stops the alternate allele.
   */
  lemma IaDegenerateIff(p: seq<real>, log: real -> real)
    requires 1 <= |p| <= MaxIaClusters
    ensures Ia(p, log) == Degenerate <==> Polymorphic(p) && HasTie(p)
  {
    var c := Complement(p);
    var bias := Bias(|p|);
    IaUnfold(p, bias, log);
    AlleleIaNone(p, bias, log);
    AlleleIaNone(c, bias, log);
    PolymorphicComplement(p);
    TieOnSomeAllele(p);
  }

  /** A locus whose plain mean is 0 or 1 skips both alleles, so Ia is 0. */
  lemma IaNotPolymorphic(p: seq<real>, log: real -> real)
    requires 1 <= |p| <= MaxIaClusters
    requires !Polymorphic(p)
    ensures Ia(p, log) == Value(0.0)
  {
    var c := Complement(p);
    IaUnfold(p, Bias(|p|), log);
    PolymorphicComplement(p);
  }

  lemma MonomorphicNotPolymorphic(p: seq<real>)
    requires |p| > 0 && Monomorphic(p)
    ensures !Polymorphic(p)
  {
    if forall i :: 0 <= i < |p| ==> p[i] == 0.0 {
      MeanOfConstant(p, 0.0);
    } else {
      MeanOfConstant(p, 1.0);
    }
  }

  /** A monomorphic row (all 0 or all 1) gives Ia = 0. */
  lemma IaMonomorphic(p: seq<real>, log: real -> real)
    requires 1 <= |p| <= MaxIaClusters
    requires Monomorphic(p)
    ensures Ia(p, log) == Value(0.0)
  {
    MonomorphicNotPolymorphic(p);
    IaNotPolymorphic(p, log);
  }

  /** p = [0.5, 0.5]: the two clusters tie, so Ia is −9999. */
  lemma IaTiedHalves(log: real -> real)
    ensures Ia([0.5, 0.5], log) == Degenerate
    ensures ReportIa(Ia([0.5, 0.5], log)) == Number(-9999.0)
  {
    var p := [0.5, 0.5];
    assert Sum(p) == 1.0 by {
      assert p[..1] == [0.5];
      assert [0.5][..0] == [];
    }
    assert p[0] == p[1];
    IaDegenerateIff(p, log);
  }

  /**
   * p = [0.5, 0.5] under the uniform prior: each allele's entropy term and its
   * cluster terms cancel, so In is 0 whatever the logarithm.
   */
  lemma InTiedHalves(log: real -> real)
    ensures In([0.5, 0.5], [0.5, 0.5], log) == 0.0
  {
    var h := [0.5, 0.5];
    assert Complement(h) == h;
    assert Sum(Mul(h, h)) == 0.5 by {
      var m := Mul(h, h);
      assert m[..1] == [0.25] && [0.25][..0] == [];
    }
    var terms := seq(2, i requires 0 <= i < 2 => if h[i] > 0.0 then h[i] * h[i] * log(h[i]) else 0.0);
    assert LogTerms(h, h, log) == 0.5 * log(0.5) by {
      var x := log(0.5);
      assert terms[0] == 0.25 * x && terms[1] == 0.25 * x;
      assert terms[..1][..0] == [];
      assert Sum(terms[..1]) == 0.25 * x;
      assert Sum(terms) == Sum(terms[..1]) + terms[1];
    }
    assert AlleleIn(h, h, log) == 0.0;
    assert InUpTo(h, h, log, 1) == 0.0;
  }

  // ---------------------------------------------------- ORCA (eq. 12)

  /** Hardy–Weinberg frequencies of the homozygous reference genotype, p². */
  function HomRef(p: seq<real>): seq<real>
  {
    seq(|p|, i requires 0 <= i < |p| => p[i] * p[i])
  }

  /** Heterozygote frequencies, 2·p·(1 − p). */
  function Het(p: seq<real>): seq<real>
  {
    seq(|p|, i requires 0 <= i < |p| => 2.0 * p[i] * (1.0 - p[i]))
  }

  /** Homozygous alternate frequencies, (1 − p)². */
  function HomAlt(p: seq<real>): seq<real>
  {
    seq(|p|, i requires 0 <= i < |p| => (1.0 - p[i]) * (1.0 - p[i]))
  }

  /** `orca_diploid(p_vec, q)`: the Bayes-optimal weight of each genotype, summed. */
  function OrcaDiploid(p: seq<real>, q: seq<real>): real
    requires |p| == |q| > 0
  {
    Max(Mul(q, HomRef(p))) + Max(Mul(q, Het(p))) + Max(Mul(q, HomAlt(p)))
  }

  lemma ProductNonNegative(x: real, y: real)
    requires x >= 0.0 && y >= 0.0
    ensures x * y >= 0.0
  {
  }

  /** The three genotype shares of one cluster's prior weight w are non-negative and add up to w. */
  lemma GenotypeShares(x: real, w: real)
    requires 0.0 <= x <= 1.0 && 0.0 <= w
    ensures w * (x * x) + w * (2.0 * x * (1.0 - x)) + w * ((1.0 - x) * (1.0 - x)) == w
    ensures w * (x * x) >= 0.0 && w * (2.0 * x * (1.0 - x)) >= 0.0 && w * ((1.0 - x) * (1.0 - x)) >= 0.0
  {
    var y := 1.0 - x;
    var hr, he, ha := x * x, 2.0 * x * y, y * y;
    assert hr + he + ha == (x + y) * (x + y);
    assert hr + he + ha == 1.0;
    assert w * hr + w * he + w * ha == w * (hr + he + ha);
    ProductNonNegative(x, x);
    ProductNonNegative(2.0 * x, y);
    ProductNonNegative(y, y);
    ProductNonNegative(w, hr);
    ProductNonNegative(w, he);
    ProductNonNegative(w, ha);
  }

  /** Prior-weighted genotype frequencies: non-negative, and per cluster they add up to the prior. */
  lemma GenotypeVectors(p: seq<real>, q: seq<real>)
    requires |p| == |q|
    requires InUnitRange(p) && NonNegative(q)
    ensures NonNegative(Mul(q, HomRef(p))) && NonNegative(Mul(q, Het(p))) && NonNegative(Mul(q, HomAlt(p)))
    ensures forall i :: 0 <= i < |q| ==> Mul(q, HomRef(p))[i] + Mul(q, Het(p))[i] + Mul(q, HomAlt(p))[i] == q[i]
  {
    var a, b, c := Mul(q, HomRef(p)), Mul(q, Het(p)), Mul(q, HomAlt(p));
    forall i | 0 <= i < |p| ensures a[i] + b[i] + c[i] == q[i] && a[i] >= 0.0 && b[i] >= 0.0 && c[i] >= 0.0 {
      var x, w := p[i], q[i];
      assert a[i] == w * (x * x);
      assert b[i] == w * (2.0 * x * (1.0 - x));
      assert c[i] == w * ((1.0 - x) * (1.0 - x));
      GenotypeShares(x, w);
    }
  }

  /**
   * Three non-negative vectors adding up to q: the sum of their maxima is at
   * most the sum of q and at least the largest entry of q.
   */
  lemma MaximaOfSplit(a: seq<real>, b: seq<real>, c: seq<real>, q: seq<real>)
    requires |a| == |b| == |c| == |q| > 0
    requires NonNegative(a) && NonNegative(b) && NonNegative(c)
    requires forall i :: 0 <= i < |q| ==> a[i] + b[i] + c[i] == q[i]
    ensures Max(a) + Max(b) + Max(c) <= Sum(q)
    ensures Max(q) <= Max(a) + Max(b) + Max(c)
  {
    var ab := seq(|q|, i requires 0 <= i < |q| => a[i] + b[i]);
    SumAdd(a, b, ab);
    SumAdd(ab, c, q);
    MaxAtMostSum(a);
    MaxAtMostSum(b);
    MaxAtMostSum(c);
    MaxIsMaximum(a);
    MaxIsMaximum(b);
    MaxIsMaximum(c);
    MaxIsMaximum(q);
    var j :| 0 <= j < |q| && q[j] == Max(q);
    assert a[j] <= Max(a) && b[j] <= Max(b) && c[j] <= Max(c);
  }

  /**
   * ORCA is a probability, and it is at least the largest prior: guessing the
   * most likely cluster is already that accurate.
   */
  lemma OrcaBounds(p: seq<real>, q: seq<real>)
    requires |p| == |q| > 0
    requires InUnitRange(p) && IsDistribution(q)
    ensures 0.0 <= OrcaDiploid(p, q) <= 1.0
    ensures Max(q) <= OrcaDiploid(p, q)
  {
    var a, b, c := Mul(q, HomRef(p)), Mul(q, Het(p)), Mul(q, HomAlt(p));
    GenotypeVectors(p, q);
    MaximaOfSplit(a, b, c, q);
    MaxIsMaximum(q);
    assert q[0] <= Max(q);
  }

  // ------------------------------------------------- priors and main

  /** A numeric table as `np.loadtxt` returns it: rows of one common width. */
  datatype Matrix = Matrix(rows: seq<seq<real>>, columns: nat)

  predicate Rectangular(m: Matrix) {
    |m.rows| > 0 && forall r :: 0 <= r < |m.rows| ==> |m.rows[r]| == m.columns
  }

  function Column(m: Matrix, j: nat): (c: seq<real>)
    requires Rectangular(m) && j < m.columns
    ensures |c| == |m.rows| && forall r :: 0 <= r < |m.rows| ==> c[r] == m.rows[r][j]
  {
    seq(|m.rows|, r requires 0 <= r < |m.rows| => m.rows[r][j])
  }

  /** `Q.mean(axis=0)`. */
  function ColumnMeans(m: Matrix): (means: seq<real>)
    requires Rectangular(m)
    ensures |means| == m.columns
  {
    seq(m.columns, j requires 0 <= j < m.columns => Mean(Column(m, j)))
  }

  /** `q /= q.sum()`. */
  function Normalize(v: seq<real>, total: real): (r: seq<real>)
    requires total != 0.0
    ensures |r| == |v| && forall i :: 0 <= i < |v| ==> r[i] == v[i] / total
  {
    seq(|v|, i requires 0 <= i < |v| => v[i] / total)
  }

  /** Why no prior could be formed. */
  datatype PriorError =
    | ColumnMismatch(columns: nat, clusters: nat)  // `.Q columns ≠ K clusters in .P`
    | ZeroPriorMass                                // every column mean of `.Q` is 0

  /** The prior of lines 130-139: column means of `.Q` normalised, or uniform without `.Q`. */
  function Prior(k: nat, ancestry: Option<Matrix>): Result<seq<real>, PriorError>
    requires k >= 1
    requires ancestry.Some? ==> Rectangular(ancestry.value)
  {
    match ancestry
    case None => Ok(Constant(k, 1.0 / k as real))
    case Some(m) =>
      if m.columns != k then Err(ColumnMismatch(m.columns, k))
      else
        var means := ColumnMeans(m);
        var total := Sum(means);
        if total == 0.0 then Err(ZeroPriorMass) else Ok(Normalize(means, total))
  }

  /** The uniform prior 1/K sums to 1. */
  lemma UniformSumsToOne(k: nat)
    requires k >= 1
    ensures Sum(Constant(k, 1.0 / k as real)) == 1.0
  {
    SumConstant(k, 1.0 / k as real);
    assert k as real * (1.0 / k as real) == 1.0;
  }

  /** Dividing by the total makes a vector sum to 1. */
  lemma NormalizeSumsToOne(v: seq<real>)
    requires Sum(v) != 0.0
    ensures Sum(Normalize(v, Sum(v))) == 1.0
  {
    SumScale(v, Sum(v), Normalize(v, Sum(v)));
    assert Sum(v) / Sum(v) == 1.0;
  }

  /** Every prior the estimator returns has K entries summing to 1. */
  lemma PriorSumsToOne(k: nat, ancestry: Option<Matrix>)
    requires k >= 1
    requires ancestry.Some? ==> Rectangular(ancestry.value)
    requires Prior(k, ancestry).Ok?
    ensures |Prior(k, ancestry).value| == k
    ensures Sum(Prior(k, ancestry).value) == 1.0
  {
    if ancestry.None? {
      UniformSumsToOne(k);
    } else {
      NormalizeSumsToOne(ColumnMeans(ancestry.value));
    }
  }

  lemma MeanNonNegative(v: seq<real>)
    requires |v| > 0 && NonNegative(v)
    ensures Mean(v) >= 0.0
  {
    SumNonNegative(v);
  }

  /** With a non-negative `.Q`, the estimated prior is a probability vector. */
  lemma PriorIsDistribution(k: nat, ancestry: Option<Matrix>)
    requires k >= 1
    requires ancestry.Some? ==> Rectangular(ancestry.value)
    requires ancestry.Some? ==> forall r :: 0 <= r < |ancestry.value.rows| ==> NonNegative(ancestry.value.rows[r])
    requires Prior(k, ancestry).Ok?
    ensures IsDistribution(Prior(k, ancestry).value)
  {
    PriorSumsToOne(k, ancestry);
    if ancestry.Some? {
      var m := ancestry.value;
      var means := ColumnMeans(m);
      MeansNonNegative(m);
      SumNonNegative(means);
      NormalizeNonNegative(means, Sum(means));
    }
  }

  lemma MeansNonNegative(m: Matrix)
    requires Rectangular(m)
    requires forall r :: 0 <= r < |m.rows| ==> NonNegative(m.rows[r])
    ensures NonNegative(ColumnMeans(m))
  {
    var means := ColumnMeans(m);
    forall j | 0 <= j < m.columns ensures means[j] >= 0.0 {
      var col := Column(m, j);
      assert NonNegative(col) by {
        forall r | 0 <= r < |col| ensures col[r] >= 0.0 {
          assert NonNegative(m.rows[r]);
        }
      }
      MeanNonNegative(col);
    }
  }

  lemma NormalizeNonNegative(v: seq<real>, total: real)
    requires NonNegative(v) && total > 0.0
    ensures NonNegative(Normalize(v, total))
  {
    forall i | 0 <= i < |v| ensures Normalize(v, total)[i] >= 0.0 {
      assert v[i] >= 0.0;
    }
  }

  /** One line of the output table. */
  datatype LocusResult = LocusResult(index: nat, inValue: real, ia: IaResult, orca: real)

  /** What a run produces: which prior it used, the prior, and one result per locus in order. */
  datatype Report = Report(priorFromAncestry: bool, prior: seq<real>, results: seq<LocusResult>)

  /** Lines 130-139 of `main` in bin/infocalc.py: the prior, or the error that stops the run before any locus. */
  method EstimatePrior(k: nat, ancestry: Option<Matrix>) returns (r: Result<seq<real>, PriorError>)
    requires k >= 1
    requires ancestry.Some? ==> Rectangular(ancestry.value)
    ensures r == Prior(k, ancestry)
    ensures r.Ok? ==> |r.value| == k && Sum(r.value) == 1.0
  {
    if ancestry.None? {
      UniformSumsToOne(k);
      return Ok(Constant(k, 1.0 / k as real));
    }
    var m := ancestry.value;
    if m.columns != k {
      return Err(ColumnMismatch(m.columns, k));
    }
    var q := ColumnMeans(m);
    var total := Sum(q);
    if total == 0.0 {
      return Err(ZeroPriorMass);
    }
    NormalizeSumsToOne(q);
    return Ok(Normalize(q, total));
  }

  /** Lines 147-150 of `main` in bin/infocalc.py: the three statistics of one row. */
  method ScoreLocus(p: seq<real>, q: seq<real>, log: real -> real) returns (inValue: real, ia: IaResult, orca: real)
    requires |p| == |q| >= 1
    ensures inValue == In(p, q, log) && ia == Ia(p, log) && orca == OrcaDiploid(p, q)
  {
    inValue := InLocus(p, q, log);
    ia := IaLocusUniform(p, log);
    orca := OrcaDiploid(p, q);
  }

  /** The result row i of `.P` yields. */
  function Score(i: nat, p: seq<real>, q: seq<real>, log: real -> real): LocusResult
    requires |p| == |q| >= 1
  {
    LocusResult(i, In(p, q, log), Ia(p, log), OrcaDiploid(p, q))
  }

  /** Lines 141-153 of `main` in bin/infocalc.py: In, Ia and ORCA of every row into three arrays, row i at index i. */
  method ScoreLoci(freqs: seq<seq<real>>, q: seq<real>, log: real -> real) returns (results: seq<LocusResult>)
    requires |q| >= 1 && forall i :: 0 <= i < |freqs| ==> |freqs[i]| == |q|
    ensures |results| == |freqs|
    ensures forall i :: 0 <= i < |freqs| ==> results[i] == Score(i, freqs[i], q, log)
  {
    var n := |freqs|;
    var inVals := new real[n];
    var iaVals := new IaResult[n];
    var orcaVals := new real[n];
    for i := 0 to n
      invariant forall j :: 0 <= j < i ==>
        LocusResult(j, inVals[j], iaVals[j], orcaVals[j]) == Score(j, freqs[j], q, log)
    {
      var inValue, ia, orca := ScoreLocus(freqs[i], q, log);
      inVals[i], iaVals[i], orcaVals[i] := inValue, ia, orca;
      assert LocusResult(i, inVals[i], iaVals[i], orcaVals[i]) == Score(i, freqs[i], q, log);
    }
    var ins, ias, orcas := inVals[..], iaVals[..], orcaVals[..];
    results := seq(n, i requires 0 <= i < n => LocusResult(i, ins[i], ias[i], orcas[i]));
  }

  /**
   * Lines 130-153 of `main` in bin/infocalc.py: the prior (exiting on a width mismatch before
   * any locus is scored), then one result per row of `.P`. Result i depends
   * only on row i and the shared prior.
   */
  method Run(freqs: seq<seq<real>>, k: nat, ancestry: Option<Matrix>, log: real -> real)
    returns (r: Result<Report, PriorError>)
    requires k >= 1 && forall i :: 0 <= i < |freqs| ==> |freqs[i]| == k
    requires ancestry.Some? ==> Rectangular(ancestry.value)
    ensures r.Err? <==> Prior(k, ancestry).Err?
    ensures r.Err? ==> r.error == Prior(k, ancestry).error
    ensures r.Ok? ==> r.value.prior == Prior(k, ancestry).value && Sum(r.value.prior) == 1.0
    ensures r.Ok? ==> r.value.priorFromAncestry == ancestry.Some?
    ensures r.Ok? ==> (|r.value.results| == |freqs| &&
      forall i :: 0 <= i < |freqs| ==>
        r.value.results[i] == Score(i, freqs[i], r.value.prior, log))
  {
    var prior := EstimatePrior(k, ancestry);
    if prior.Err? {
      return Err(prior.error);
    }
    var results := ScoreLoci(freqs, prior.value, log);
    return Ok(Report(ancestry.Some?, prior.value, results));
  }
}
