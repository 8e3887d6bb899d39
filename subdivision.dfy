/**
 * The discrete subdivision shared by PolygonTransformer.apply_transformation,
 * TransformerMixin.apply_polygon_transformation and the discrete branch of the
 * web app: each round applies every transform to every polygon, and the
 * output is ordered polygon-major, transform-minor.
 */
module Subdivision {
  import opened Arrays
  import opened Arith

  /** The images of one polygon under every transform, in transform order. */
  function Images(ts: seq<Mat>, p: Mat): seq<Mat> {
    seq(|ts|, t requires 0 <= t < |ts| => MatMul(ts[t], p))
  }

  /** One round: for each polygon in order, its images under every transform. */
  function Round(ts: seq<Mat>, ps: seq<Mat>): seq<Mat>
    decreases |ps|
  {
    if |ps| == 0 then [] else Round(ts, ps[..|ps| - 1]) + Images(ts, ps[|ps| - 1])
  }

  /** `rounds` rounds starting from `ps`. */
  function Iterate(ts: seq<Mat>, ps: seq<Mat>, rounds: nat): seq<Mat> {
    if rounds == 0 then ps else Round(ts, Iterate(ts, ps, rounds - 1))
  }

  /** The loop's result for an iteration count `n`: `n` rounds from the seed, or the initial `[]` when `n <= 0`. */
  function Subdivide(ts: seq<Mat>, seed: Mat, n: int): seq<Mat> {
    if n <= 0 then [] else Iterate(ts, [seed], n)
  }

  // ---- one round ----

  /** A round has one result per (polygon, transform) pair. */
  lemma {:induction false} RoundLength(ts: seq<Mat>, ps: seq<Mat>)
    ensures |Round(ts, ps)| == |ps| * |ts|
    decreases |ps|
  {
    if |ps| > 0 {
      RoundLength(ts, ps[..|ps| - 1]);
      NextBlock(|ps| - 1, |ts|);
    }
  }

  /** Element `p * k + t` of a round is transform `t` applied to polygon `p`. */
  lemma {:induction false} RoundAt(ts: seq<Mat>, ps: seq<Mat>, j: nat)
    requires j < |ps| * |ts|
    ensures |Round(ts, ps)| == |ps| * |ts|
    ensures |ts| > 0 && 0 <= j / |ts| < |ps| && 0 <= j % |ts| < |ts|
    ensures Round(ts, ps)[j] == MatMul(ts[j % |ts|], ps[j / |ts|])
    decreases |ps|
  {
    var k := |ts|;
    var last := |ps| - 1;
    var prefix := ps[..last];
    DivModNat(j, k);
    RoundLength(ts, prefix);
    RoundLength(ts, ps);
    NextBlock(last, k);
    if j < last * k {
      RoundAt(ts, prefix, j);
      assert Round(ts, ps)[j] == Round(ts, prefix)[j];
      assert prefix[j / k] == ps[j / k];
    } else {
      var t := j - last * k;
      assert 0 <= t < k;
      DivModBlock(j, k, last, t);
      assert Round(ts, ps)[j] == Images(ts, ps[last])[t];
    }
  }

  // ---- many rounds ----

  /** After `n` rounds there are `|ps| * k^n` polygons. */
  lemma {:induction false} IterateLength(ts: seq<Mat>, ps: seq<Mat>, n: nat)
    ensures |Iterate(ts, ps, n)| == |ps| * Pow(|ts|, n)
  {
    if n > 0 {
      IterateLength(ts, ps, n - 1);
      RoundLength(ts, Iterate(ts, ps, n - 1));
      PowStep(|ps|, |ts|, n);
    }
  }

  /**
   * The count of the loop's result: `k^n` polygons for `n >= 1`; `[]` (not the
   * seed) for `n <= 0`; `[]` when there are no transforms.
   */
  lemma SubdivideCount(ts: seq<Mat>, seed: Mat, n: int)
    ensures n >= 1 ==> |Subdivide(ts, seed, n)| == Pow(|ts|, n)
    ensures n <= 0 ==> Subdivide(ts, seed, n) == []
    ensures n >= 1 && |ts| == 0 ==> Subdivide(ts, seed, n) == []
  {
    if n >= 1 {
      IterateLength(ts, [seed], n);
      PowStep(1, |ts|, n);
    }
  }

  /**
   * Element `j` of the result was produced, in the last round, by transform `j % k`
   * from element `j / k` of the previous round.
   */
  lemma LastTransform(ts: seq<Mat>, seed: Mat, n: int, j: nat)
    requires n >= 1 && j < |Subdivide(ts, seed, n)|
    ensures |ts| > 0 && 0 <= j / |ts| < |Iterate(ts, [seed], n - 1)|
    ensures Subdivide(ts, seed, n)[j] == MatMul(ts[j % |ts|], Iterate(ts, [seed], n - 1)[j / |ts|])
  {
    var m: nat := n - 1;
    var prev := Iterate(ts, [seed], m);
    assert Iterate(ts, [seed], m + 1) == Round(ts, prev);
    assert Subdivide(ts, seed, n) == Round(ts, prev);
    RoundLength(ts, prev);
    RoundAt(ts, prev, j);
  }

  // ---- lineage: the base-k digits of a position ----

  /** The `n` base-`k` digits of `j`, most significant first. */
  function Digits(j: nat, k: nat, n: nat): (ds: seq<nat>)
    requires k > 0
    ensures |ds| == n && forall i | 0 <= i < n :: ds[i] < k
  {
    if n == 0 then [] else DivModNat(j, k); Digits(j / k, k, n - 1) + [j % k]
  }

  /** The number whose base-`k` digits are `ds`, most significant first. */
  function FromDigits(ds: seq<nat>, k: nat): nat {
    if |ds| == 0 then 0 else FromDigits(ds[..|ds| - 1], k) * k + ds[|ds| - 1]
  }

  /** `Digits` really are the base-`k` digits: reading them back gives `j`. */
  lemma {:induction false} DigitsRoundTrip(j: nat, k: nat, n: nat)
    requires k > 0 && j < Pow(k, n)
    ensures FromDigits(Digits(j, k, n), k) == j
  {
    if n > 0 {
      PowStep(1, k, n);
      BlockBound(j, k, Pow(k, n - 1));
      DivModNat(j, k);
      DigitsRoundTrip(j / k, k, n - 1);
      var ds := Digits(j, k, n);
      assert ds[..n - 1] == Digits(j / k, k, n - 1);
    }
  }

  /** The transforms named by `ds` applied to `seed`, the first digit applied first. */
  function ApplyDigits(ts: seq<Mat>, ds: seq<nat>, seed: Mat): Mat
    requires forall i | 0 <= i < |ds| :: ds[i] < |ts|
  {
    if |ds| == 0 then seed else MatMul(ts[ds[|ds| - 1]], ApplyDigits(ts, ds[..|ds| - 1], seed))
  }

  /**
   * Element `j` of `n` rounds is the seed transformed by the transforms that the base-k
   * digits of `j` name, most significant digit applied first.
   */
  lemma {:induction false} IterateAt(ts: seq<Mat>, seed: Mat, n: nat, j: nat)
    requires |ts| > 0 && j < Pow(|ts|, n)
    ensures |Iterate(ts, [seed], n)| == Pow(|ts|, n)
    ensures Iterate(ts, [seed], n)[j] == ApplyDigits(ts, Digits(j, |ts|, n), seed)
  {
    var k := |ts|;
    IterateLength(ts, [seed], n);
    if n > 0 {
      var prev := Iterate(ts, [seed], n - 1);
      IterateLength(ts, [seed], n - 1);
      PowStep(1, k, n);
      RoundAt(ts, prev, j);
      IterateAt(ts, seed, n - 1, j / k);
      var ds := Digits(j, k, n);
      assert ds[..n - 1] == Digits(j / k, k, n - 1);
    }
  }

  /** The lineage form of the result, for `n >= 1` rounds. */
  lemma SubdivideLineage(ts: seq<Mat>, seed: Mat, n: int, j: nat)
    requires n >= 1 && j < |Subdivide(ts, seed, n)|
    ensures |ts| > 0
    ensures Subdivide(ts, seed, n)[j] == ApplyDigits(ts, Digits(j, |ts|, n), seed)
  {
    SubdivideCount(ts, seed, n);
    if |ts| == 0 {
      assert false;
    }
    IterateAt(ts, seed, n, j);
  }

  // ---- geometry is preserved ----

  /** Every transform is a homogeneous affine matrix. */
  predicate AllAffine(ts: seq<Mat>) {
    forall t | 0 <= t < |ts| :: IsAffine(ts[t])
  }

  /** With affine transforms, every output polygon keeps its `v` vertices and homogeneous coordinate 1. */
  lemma {:induction false} IteratePolygons(ts: seq<Mat>, ps: seq<Mat>, n: nat, v: nat)
    requires AllAffine(ts) && v > 0
    requires forall q | 0 <= q < |ps| :: IsPolygon(ps[q], v)
    ensures forall q | 0 <= q < |Iterate(ts, ps, n)| :: IsPolygon(Iterate(ts, ps, n)[q], v)
  {
    if n > 0 {
      IteratePolygons(ts, ps, n - 1, v);
      var prev := Iterate(ts, ps, n - 1);
      RoundLength(ts, prev);
      forall q | 0 <= q < |Round(ts, prev)|
        ensures IsPolygon(Round(ts, prev)[q], v)
      {
        RoundAt(ts, prev, q);
        var t, p := q % |ts|, q / |ts|;
        assert IsAffine(ts[t]) && IsPolygon(prev[p], v);
        AffineKeepsPolygon(ts[t], prev[p], v);
      }
    }
  }

  /** The same for the loop's result from one seed. */
  lemma SubdividePolygons(ts: seq<Mat>, seed: Mat, n: int, v: nat)
    requires AllAffine(ts) && v > 0 && IsPolygon(seed, v)
    ensures forall q | 0 <= q < |Subdivide(ts, seed, n)| :: IsPolygon(Subdivide(ts, seed, n)[q], v)
  {
    if n >= 1 {
      IteratePolygons(ts, [seed], n, v);
    }
  }

  // ---- the loop ----

  /** One round as the source writes it: two nested loops appending `transformation @ polygon`. */
  method SubdivideOnce(ts: seq<Mat>, oldPoints: seq<Mat>) returns (newPoints: seq<Mat>)
    ensures newPoints == Round(ts, oldPoints)
  {
    newPoints := [];
    for q := 0 to |oldPoints|
      invariant newPoints == Round(ts, oldPoints[..q])
    {
      var polygon := oldPoints[q];
      for t := 0 to |ts|
        invariant newPoints == Round(ts, oldPoints[..q]) + Images(ts, polygon)[..t]
      {
        newPoints := newPoints + [MatMul(ts[t], polygon)];
      }
      assert oldPoints[..q + 1][..q] == oldPoints[..q];
    }
    assert oldPoints[..|oldPoints|] == oldPoints;
  }
}
