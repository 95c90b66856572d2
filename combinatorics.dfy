/**
 * The exact integer helpers of bin/infocalc.py: `factorial` and the bottom-up
 * table for unsigned Stirling numbers of the first kind. Dafny's `nat` is
 * unbounded, like Python's `int` and numpy's `dtype=object` cells.
 */
module Combinatorics {

  /** `math.prod(range(1, n + 1)) or 1`: the product 1·2·…·n, which is 1 for every n <= 0. */
  function Factorial(n: int): (r: nat)
    ensures r >= 1
    ensures n >= 1 ==> r >= n
    decreases if n <= 0 then 0 else n
  {
    if n <= 0 then 1 else n * Factorial(n - 1)
  }

  /** 24!, the largest factorial the Ia statistic uses, is exact. */
  lemma Factorial24()
    ensures Factorial(24) == 620448401733239439360000
  {
    assert Factorial(12) == 479001600;
    assert Factorial(24) == 24 * 23 * 22 * 21 * 20 * 19 * 18 * 17 * 16 * 15 * 14 * 13 * Factorial(12);
  }

  /**
   * |s(n, k)|, the number of permutations of n elements with exactly k cycles,
   * by its defining recurrence.
   */
  function Stirling(n: nat, k: nat): nat
  {
    if n == 0 then (if k == 0 then 1 else 0)
    else if k == 0 then 0
    else Stirling(n - 1, k - 1) + (n - 1) * Stirling(n - 1, k)
  }

  /** Fewer elements than cycles is impossible: S(n, k) = 0 when k > n. */
  lemma {:induction false} StirlingAboveDiagonal(n: nat, k: nat)
    requires k > n
    ensures Stirling(n, k) == 0
  {
    if n > 0 {
      StirlingAboveDiagonal(n - 1, k - 1);
      StirlingAboveDiagonal(n - 1, k);
    }
  }

  /** S(n, n) = 1: only the identity has n cycles. */
  lemma {:induction false} StirlingDiagonal(n: nat)
    ensures Stirling(n, n) == 1
  {
    if n > 0 {
      StirlingDiagonal(n - 1);
      StirlingAboveDiagonal(n - 1, n);
    }
  }

  /** S(n, 1) = (n − 1)!: the cyclic permutations of n elements. */
  lemma {:induction false} StirlingFirstColumn(n: nat)
    requires n >= 1
    ensures Stirling(n, 1) == Factorial(n - 1)
  {
    if n > 1 {
      StirlingFirstColumn(n - 1);
      assert Stirling(n, 1) == (n - 1) * Stirling(n - 1, 1);
    }
  }

  /** S(0, k) + … + S(n, m − 1): the first m entries of row n. */
  function RowSum(n: nat, m: nat): nat
  {
    if m == 0 then 0 else RowSum(n, m - 1) + Stirling(n, m - 1)
  }

  lemma {:induction false} RowSumStep(n: nat, m: nat)
    requires n >= 1
    ensures RowSum(n, m + 1) == RowSum(n - 1, m) + (n - 1) * RowSum(n - 1, m + 1)
  {
    if m > 0 {
      RowSumStep(n, m - 1);
      var a := RowSum(n - 1, m);
      var st := Stirling(n - 1, m);
      assert Stirling(n, m) == Stirling(n - 1, m - 1) + (n - 1) * st;
      assert RowSum(n - 1, m + 1) == a + st;
      Distribute(n - 1, a, st);
    } else {
      assert RowSum(n - 1, 1) == Stirling(n - 1, 0);
    }
  }

  lemma Distribute(c: int, x: int, y: int)
    ensures c * (x + y) == c * x + c * y
  {
  }

  lemma FactorialStep(n: nat)
    requires n >= 1
    ensures Factorial(n) == Factorial(n - 1) + (n - 1) * Factorial(n - 1)
  {
    var f := Factorial(n - 1);
    assert Factorial(n) == n * f;
    assert n * f == f + (n - 1) * f;
  }

  /** The cycle counts partition the permutations: S(n, 0) + … + S(n, n) = n!. */
  lemma {:induction false} RowSumIsFactorial(n: nat)
    ensures RowSum(n, n + 1) == Factorial(n)
  {
    if n > 0 {
      RowSumIsFactorial(n - 1);
      RowSumStep(n, n);
      StirlingAboveDiagonal(n - 1, n);
      assert RowSum(n - 1, n + 1) == Factorial(n - 1);
      FactorialStep(n);
    }
  }

  lemma MulNonNegative(a: nat, b: nat)
    ensures a * b >= 0
  {
  }

  /** One pass of the inner loop: row i from row i − 1, for 1 <= j <= min(i, k). */
  method FillRow(s: array2<nat>, i: nat, k: nat)
    requires 1 <= i < s.Length0 && s.Length1 == k + 1
    requires forall a, b :: 0 <= a < i && 0 <= b <= k ==> s[a, b] == Stirling(a, b)
    requires forall b :: 0 <= b <= k ==> s[i, b] == 0
    modifies s
    ensures forall b :: 0 <= b <= k ==> s[i, b] == Stirling(i, b)
    ensures forall a, b :: 0 <= a < s.Length0 && a != i && 0 <= b <= k ==> s[a, b] == old(s[a, b])
  {
    var top := if i < k then i else k;
    for j := 1 to top + 1
      invariant forall a, b :: 0 <= a < s.Length0 && a != i && 0 <= b <= k ==> s[a, b] == old(s[a, b])
      invariant forall b :: 1 <= b < j ==> s[i, b] == Stirling(i, b)
      invariant forall b :: (b == 0 || j <= b) && b <= k ==> s[i, b] == 0
    {
      var diag, up := s[i - 1, j - 1], s[i - 1, j];
      MulNonNegative(i - 1, up);
      s[i, j] := diag + (i - 1) * up;
    }
    forall b | top < b <= k ensures Stirling(i, b) == 0 {
      StirlingAboveDiagonal(i, b);
    }
  }

  /**
   * `unsigned_stirling_first(n, k)`: the two shortcuts, then an (n+1)×(k+1)
   * table of zeros filled row by row with S(i, j) = S(i−1, j−1) + (i−1)·S(i−1, j)
   * for 1 <= j <= min(i, k); the answer is cell (n, k).
   */
  method UnsignedStirlingFirst(n: nat, k: nat) returns (r: nat)
    ensures r == Stirling(n, k)
  {
    if k == 0 {
      return if n == 0 then 1 else 0;
    }
    if k == n {
      StirlingDiagonal(n);
      return 1;
    }
    var s := new nat[n + 1, k + 1]((i, j) => 0);
    s[0, 0] := 1;
    for i := 1 to n + 1
      invariant forall a, b :: 0 <= a < i && 0 <= b <= k ==> s[a, b] == Stirling(a, b)
      invariant forall a, b :: i <= a <= n && 0 <= b <= k ==> s[a, b] == 0
    {
      FillRow(s, i, k);
    }
    r := s[n, k];
  }
}
