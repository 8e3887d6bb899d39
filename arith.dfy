/** Facts about integer multiplication and Euclidean division, proved one step at a time. */
module Arith {

  /** `k` to the power `n`. */
  function Pow(k: nat, n: nat): nat {
    if n == 0 then 1 else k * Pow(k, n - 1)
  }

  lemma MulNonneg(a: int, b: int)
    requires a >= 0 && b >= 0
    ensures a * b >= 0
  {
  }

  lemma MulMono(a: int, b: int, k: int)
    requires a <= b && k >= 0
    ensures a * k <= b * k
  {
    MulNonneg(b - a, k);
    assert b * k - a * k == (b - a) * k;
  }

  /** Euclidean division of a non-negative number by a positive one. */
  lemma DivModNat(j: int, k: int)
    requires j >= 0 && k > 0
    ensures 0 <= j / k <= j && 0 <= j % k < k && j == (j / k) * k + j % k
  {
    var q := j / k;
    if q < 0 {
      MulMono(q, -1, k);
      assert false;
    }
    if q > j {
      MulMono(1, k, q);
      assert false;
    }
  }

  /** Position `p * k + t` with `t < k` is digit `t` of block `p`. */
  lemma DivModBlock(j: int, k: int, p: int, t: int)
    requires k > 0 && 0 <= t < k && j == p * k + t
    ensures j / k == p && j % k == t
  {
    var q, r := j / k, j % k;
    if q > p {
      MulMono(p + 1, q, k);
      assert false;
    } else if q < p {
      MulMono(q + 1, p, k);
      assert false;
    }
  }

  /** A position below `n` blocks of `k` lies in one of the first `n` blocks. */
  lemma BlockBound(j: int, k: int, n: int)
    requires k > 0 && 0 <= j < n * k
    ensures 0 <= j / k < n
  {
    DivModNat(j, k);
    if j / k >= n {
      MulMono(n, j / k, k);
      assert false;
    }
  }

  /** Block `p` of `k` positions starts at `p * k` and ends before `(p + 1) * k`. */
  lemma NextBlock(p: int, k: int)
    ensures (p + 1) * k == p * k + k
  {
  }

  /** `k^n = k^(n-1) * k`, and a block of `m * k^(n-1)` positions times `k` is `m * k^n`. */
  lemma PowStep(m: nat, k: nat, n: nat)
    requires n > 0
    ensures Pow(k, n) == Pow(k, n - 1) * k
    ensures m * Pow(k, n - 1) * k == m * Pow(k, n)
  {
    var p := Pow(k, n - 1);
    assert Pow(k, n) == k * p;
    assert m * p * k == m * (p * k);
  }
}
