/**
 * `compute_transformation` of the web app (fractal_designer/app.py): build one
 * matrix per transformation card, then either subdivide the unit square
 * (discrete mode) or play the chaos game from the origin (continuous mode).
 * The weighted draw `random.choices` is a library call; the model receives
 * the drawn indices as the input `draws`, one per iteration.
 */
module AppCompute {
  import opened Arrays
  import opened AffineMaps
  import opened Shapes
  import opened Subdivision

  /** The radio button `radio_mode`. */
  datatype Mode = Discrete | Continuous

  /** What `compute_transformation` returns: polygons in discrete mode, points in continuous mode. */
  datatype Geometry = Polygons(polygons: seq<Mat>) | Points(points: seq<Vec>)

  /** Every card holds the seven values `a, b, c, d, e, f, p`. */
  predicate WellFormed(cards: seq<seq<real>>) {
    forall i | 0 <= i < |cards| :: |cards[i]| == 7
  }

  /**
   * The matrix built from one card's values `[v0, ..., v6]`: the same layout as
   * `IFS(a, b, c, d, e, f)`, so `v4, v5` are the translation; `v6` (the weight p) is not used.
   */
  function CardMatrix(v: seq<real>): (m: Mat)
    requires |v| == 7
    ensures m == NewIFS(v[0], v[1], v[2], v[3], v[4], v[5]).matrix
  {
    [[v[0], v[1], v[4]], [v[2], v[3], v[5]], [0.0, 0.0, 1.0]]
  }

  /** The weight `p` plays no part in the matrix: changing it leaves the matrix as it was. */
  lemma WeightNotInMatrix(v: seq<real>, w: real)
    requires |v| == 7
    ensures CardMatrix(v[6 := w]) == CardMatrix(v)
  {
  }

  /** The card matrices in card order. */
  function CardMatrices(cards: seq<seq<real>>): seq<Mat>
    requires WellFormed(cards)
  {
    seq(|cards|, i requires 0 <= i < |cards| => CardMatrix(cards[i]))
  }

  /** The loop that builds `transformations`, one affine matrix per card, in card order. */
  method BuildTransformations(cards: seq<seq<real>>) returns (transformations: seq<Mat>)
    requires WellFormed(cards)
    ensures transformations == CardMatrices(cards)
    ensures AllAffine(transformations)
  {
    transformations := [];
    for i := 0 to |cards|
      invariant transformations == CardMatrices(cards[..i])
    {
      transformations := transformations + [CardMatrix(cards[i])];
    }
    assert cards[..|cards|] == cards;
  }

  // ---- discrete mode ----

  /**
   * The discrete branch, which runs `n` rounds from the unit square.
   */
  method ComputeDiscrete(transformations: seq<Mat>, n: int) returns (newPoints: seq<Mat>)
    ensures newPoints == Subdivide(transformations, UnitSquarePoints(), n)
  {
    var oldPoints := [UnitSquarePoints()];
    newPoints := [];
    var round := 0;
    while round < n
      invariant 0 <= round <= if n < 0 then 0 else n
      invariant oldPoints == Iterate(transformations, [UnitSquarePoints()], round)
      invariant newPoints == if round == 0 then [] else oldPoints
    {
      newPoints, oldPoints := DiscreteRound(transformations, oldPoints);
      round := round + 1;
    }
  }

  /**
   * One round of the discrete branch. The source reassigns `old_points` inside the
   * polygon loop; the loop still runs over the list it started with, so the round is
   * the plain subdivision round, and afterwards `old_points` is the new list (when the
   * list iterated over is empty it stays that list, which is then `[]` as well).
   */
  method DiscreteRound(transformations: seq<Mat>, iterated: seq<Mat>) returns (newPoints: seq<Mat>, oldPoints: seq<Mat>)
    ensures newPoints == Round(transformations, iterated)
    ensures oldPoints == newPoints
  {
    newPoints := [];
    oldPoints := iterated;
    for q := 0 to |iterated|
      invariant newPoints == Round(transformations, iterated[..q])
      invariant oldPoints == if q == 0 then iterated else newPoints
    {
      var polygon := iterated[q];
      ghost var before := newPoints;
      for t := 0 to |transformations|
        invariant newPoints == before + Images(transformations, polygon)[..t]
      {
        newPoints := newPoints + [MatMul(transformations[t], polygon)];
      }
      assert Images(transformations, polygon)[..|transformations|] == Images(transformations, polygon);
      assert iterated[..q + 1][..q] == iterated[..q];
      assert Round(transformations, iterated[..q + 1]) == Round(transformations, iterated[..q]) + Images(transformations, polygon);
      oldPoints := newPoints;
    }
    assert iterated[..|iterated|] == iterated;
  }

  // ---- weights ----

  /** `np.sum`. */
  function Sum(ws: seq<real>): real {
    if |ws| == 0 then 0.0 else ws[0] + Sum(ws[1..])
  }

  /** The p-values of the cards, in card order. */
  function Probabilities(cards: seq<seq<real>>): seq<real>
    requires WellFormed(cards)
  {
    seq(|cards|, i requires 0 <= i < |cards| => cards[i][6])
  }

  /** `k` copies of `c` add up to `k * c`. */
  lemma {:induction false} ConstantSum(k: nat, c: real)
    ensures Sum(seq(k, _ => c)) == k as real * c
  {
    if k > 0 {
      var s := seq(k, _ => c);
      assert s[1..] == seq(k - 1, _ => c);
      ConstantSum(k - 1, c);
    }
  }

  /**
   * The weight correction: weights whose sum is exactly 1 are kept; otherwise they are
   * replaced by `k` copies of `1/k`. The length stays `k`, and for `k > 0` the weights
   * in use add up to 1.
   */
  function CorrectWeights(weights: seq<real>): (r: seq<real>)
    ensures |r| == |weights|
    ensures Sum(weights) == 1.0 ==> r == weights
    ensures Sum(weights) != 1.0 ==> forall i | 0 <= i < |r| :: r[i] == 1.0 / |weights| as real
    ensures |weights| > 0 ==> Sum(r) == 1.0
  {
    if Sum(weights) == 1.0 then weights
    else
      var k := |weights|;
      ConstantSum(k, if k == 0 then 0.0 else 1.0 / k as real);
      seq(k, _ => if k == 0 then 0.0 else 1.0 / k as real)
  }

  // ---- continuous mode: the chaos game ----

  /** The starting point `(0, 0, 1)`. */
  const Origin: Vec := [0.0, 0.0, 1.0]

  /** Every drawn index names a transformation. */
  predicate ValidDraws(draws: seq<nat>, k: nat) {
    forall t | 0 <= t < |draws| :: draws[t] < k
  }

  /** The point after applying the drawn transformations in turn to the origin. */
  function Position(transformations: seq<Mat>, draws: seq<nat>): Vec
    requires ValidDraws(draws, |transformations|)
  {
    if |draws| == 0 then Origin
    else MatVec(transformations[draws[|draws| - 1]], Position(transformations, draws[..|draws| - 1]))
  }

  /** The trajectory: the point after each draw, in draw order. */
  function Trajectory(transformations: seq<Mat>, draws: seq<nat>): seq<Vec>
    requires ValidDraws(draws, |transformations|)
  {
    if |draws| == 0 then []
    else Trajectory(transformations, draws[..|draws| - 1]) + [Position(transformations, draws)]
  }

  /**
   * The trajectory has one point per draw; point `t` is transformation `draws[t]`
   * applied to point `t - 1`, and point 0 is it applied to the origin.
   */
  lemma {:induction false} TrajectoryStep(transformations: seq<Mat>, draws: seq<nat>, t: nat)
    requires ValidDraws(draws, |transformations|) && t < |draws|
    ensures |Trajectory(transformations, draws)| == |draws|
    ensures Trajectory(transformations, draws)[t]
            == MatVec(transformations[draws[t]], if t == 0 then Origin else Trajectory(transformations, draws)[t - 1])
  {
    var n := |draws|;
    var prefix := draws[..n - 1];
    TrajectoryLength(transformations, prefix);
    if t < n - 1 {
      TrajectoryStep(transformations, prefix, t);
    } else if t > 0 {
      TrajectoryLength(transformations, prefix[..n - 2]);
      assert prefix[..n - 2] == draws[..n - 2];
      assert Trajectory(transformations, draws)[t - 1] == Position(transformations, prefix);
    }
  }

  lemma {:induction false} TrajectoryLength(transformations: seq<Mat>, draws: seq<nat>)
    requires ValidDraws(draws, |transformations|)
    ensures |Trajectory(transformations, draws)| == |draws|
  {
    if |draws| > 0 {
      TrajectoryLength(transformations, draws[..|draws| - 1]);
    }
  }

  /** With affine transformations every point of the trajectory is homogeneous: `(x, y, 1)`. */
  lemma {:induction false} TrajectoryHomogeneous(transformations: seq<Mat>, draws: seq<nat>)
    requires AllAffine(transformations) && ValidDraws(draws, |transformations|)
    ensures forall t | 0 <= t < |Trajectory(transformations, draws)| ::
              |Trajectory(transformations, draws)[t]| == 3 && Trajectory(transformations, draws)[t][2] == 1.0
  {
    if |draws| > 0 {
      TrajectoryHomogeneous(transformations, draws[..|draws| - 1]);
      PositionHomogeneous(transformations, draws);
    }
  }

  lemma {:induction false} PositionHomogeneous(transformations: seq<Mat>, draws: seq<nat>)
    requires AllAffine(transformations) && ValidDraws(draws, |transformations|)
    ensures |Position(transformations, draws)| == 3 && Position(transformations, draws)[2] == 1.0
  {
    if |draws| > 0 {
      var p := Position(transformations, draws[..|draws| - 1]);
      PositionHomogeneous(transformations, draws[..|draws| - 1]);
      AffineApply(transformations[draws[|draws| - 1]], p);
    }
  }

  /** The sampling loop: start at the origin, apply the drawn transformation, record the point. */
  method ChaosGame(transformations: seq<Mat>, draws: seq<nat>) returns (newPoints: seq<Vec>)
    requires ValidDraws(draws, |transformations|)
    ensures newPoints == Trajectory(transformations, draws)
  {
    var point := Origin;
    newPoints := [];
    for t := 0 to |draws|
      invariant point == Position(transformations, draws[..t])
      invariant newPoints == Trajectory(transformations, draws[..t])
    {
      var transformation := transformations[draws[t]];
      point := MatVec(transformation, point);
      newPoints := newPoints + [point];
      assert draws[..t + 1][..t] == draws[..t];
    }
    assert draws[..|draws|] == draws;
  }

  // ---- the whole computation ----

  /**
   * `compute_transformation`. Discrete mode gives the `n`-round subdivision of the unit
   * square by the card matrices. Continuous mode with no cards gives `[]` and skips
   * sampling; otherwise it corrects the weights (`corrected` is whether the "Probability
   * Error" notice is shown) and samples one point per draw.
   */
  method ComputeTransformation(mode: Mode, cards: seq<seq<real>>, iterationsDiscrete: int, draws: seq<nat>)
    returns (geometry: Geometry, weights: seq<real>, corrected: bool)
    requires WellFormed(cards)
    requires mode == Continuous && |cards| > 0 ==> ValidDraws(draws, |cards|)
    ensures mode == Discrete ==> geometry == Polygons(Subdivide(CardMatrices(cards), UnitSquarePoints(), iterationsDiscrete))
    ensures mode == Continuous && |cards| == 0 ==> geometry == Points([])
    ensures mode == Continuous && |cards| > 0 ==>
              && weights == CorrectWeights(Probabilities(cards))
              && corrected == (Sum(Probabilities(cards)) != 1.0)
              && geometry == Points(Trajectory(CardMatrices(cards), draws))
    ensures corrected ==> mode == Continuous && |cards| > 0
  {
    var transformations := BuildTransformations(cards);
    weights, corrected := [], false;
    if mode == Discrete {
      var polygons := ComputeDiscrete(transformations, iterationsDiscrete);
      geometry := Polygons(polygons);
    } else if |transformations| > 0 {
      weights := [];
      for i := 0 to |cards|
        invariant weights == Probabilities(cards[..i])
      {
        weights := weights + [cards[i][6]];
      }
      assert cards[..|cards|] == cards;
      corrected := Sum(weights) != 1.0;
      weights := CorrectWeights(weights);
      var points := ChaosGame(transformations, draws);
      geometry := Points(points);
    } else {
      geometry := Points([]);
    }
  }
}
