/**
 * `SierpinskiTriangle` of fractal_designer/shapes/sierpinski_triangle.py: a
 * polygon transformer with three unit-square seeds (colours r, g, b) and three
 * maps, each halving the plane, translated by (0, 0), (0.25, 0.5) and (0.5, 0).
 */
module Sierpinski {
  import opened Arrays
  import opened Arith
  import opened AffineMaps
  import opened Shapes
  import opened Subdivision
  import opened Transformers

  /** The three maps, in the order they are added. */
  function SierpinskiMaps(): seq<Affine> {
    [Affine(0.5, 0.0, 0.0, 0.5, 0.0, 0.0),
     Affine(0.5, 0.0, 0.0, 0.5, 0.25, 0.5),
     Affine(0.5, 0.0, 0.0, 0.5, 0.5, 0.0)]
  }

  /** Their matrices, as stored by `add_transformation`. */
  function SierpinskiMatrices(): seq<Mat> {
    [SierpinskiMaps()[0].ToIFS().matrix, SierpinskiMaps()[1].ToIFS().matrix, SierpinskiMaps()[2].ToIFS().matrix]
  }

  /**
   * `SierpinskiTriangle()`: a fresh transformer whose seeds are three squares coloured
   * "r", "g", "b" and whose matrices are the three maps, in that order (each
   * `add_transformation` passes its shape guard).
   */
  method NewSierpinskiTriangle() returns (triangle: PolygonTransformer)
    ensures fresh(triangle)
    ensures triangle.polygons == [NewSquare("r"), NewSquare("g"), NewSquare("b")]
    ensures triangle.transformationMatrices == SierpinskiMatrices()
  {
    triangle := new PolygonTransformer();
    triangle.polygons := [NewSquare("r"), NewSquare("g"), NewSquare("b")];
    var outcome := triangle.AddTransformation(NewIFS(0.5, 0.0, 0.0, 0.5, 0.0, 0.0));
    outcome := triangle.AddTransformation(NewIFS(0.5, 0.0, 0.0, 0.5, 0.25, 0.5));
    outcome := triangle.AddTransformation(NewIFS(0.5, 0.0, 0.0, 0.5, 0.5, 0.0));
  }

  /** A homogeneous 4-vertex polygon inside the unit square. */
  predicate InUnit(p: Mat) {
    IsPolygon(p, 4) && InUnitSquare(p, 4)
  }

  /** Each of the three maps sends a polygon inside the unit square to one inside it. */
  lemma MapKeepsUnit(t: nat, p: Mat)
    requires t < 3 && InUnit(p)
    ensures InUnit(MatMul(SierpinskiMatrices()[t], p))
  {
    var m := SierpinskiMatrices()[t];
    var s := SierpinskiMaps()[t];
    assert m == [[0.5, 0.0, s.e], [0.0, 0.5, s.f], [0.0, 0.0, 1.0]];
    assert 0.0 <= s.e <= 0.5 && 0.0 <= s.f <= 0.5;
    AffineKeepsPolygon(m, p, 4);
  }

  /** The unit square is mapped into itself by every round, however many rounds are run. */
  lemma {:induction false} IterateInUnit(ps: seq<Mat>, n: nat)
    requires forall q | 0 <= q < |ps| :: InUnit(ps[q])
    ensures forall q | 0 <= q < |Iterate(SierpinskiMatrices(), ps, n)| :: InUnit(Iterate(SierpinskiMatrices(), ps, n)[q])
  {
    if n > 0 {
      var ts := SierpinskiMatrices();
      IterateInUnit(ps, n - 1);
      var prev := Iterate(ts, ps, n - 1);
      RoundLength(ts, prev);
      forall q | 0 <= q < |Round(ts, prev)|
        ensures InUnit(Round(ts, prev)[q])
      {
        RoundAt(ts, prev, q);
        var t, p := q % 3, q / 3;
        MapKeepsUnit(t, prev[p]);
      }
    }
  }

  /** For every iteration count, every output vertex lies in [0, 1] x [0, 1]. */
  lemma SierpinskiInUnitSquare(n: int)
    ensures forall q | 0 <= q < |Subdivide(SierpinskiMatrices(), UnitSquarePoints(), n)| ::
              InUnit(Subdivide(SierpinskiMatrices(), UnitSquarePoints(), n)[q])
  {
    if n >= 1 {
      UnitSquareFacts();
      IterateInUnit([UnitSquarePoints()], n);
    }
  }

  /**
   * What windows/fractal.py does with the triangle: `apply_transformations(n)` succeeds
   * and gives three groups, one per seed; the groups are identical, since the seeds share
   * their points, and each holds `3^n` polygons (243 for the `n = 5` used there).
   */
  method SierpinskiGroups(n: int) returns (groups: seq<seq<Mat>>)
    ensures |groups| == 3
    ensures forall g | 0 <= g < 3 :: groups[g] == Subdivide(SierpinskiMatrices(), UnitSquarePoints(), n)
    ensures groups[0] == groups[1] == groups[2]
    ensures n >= 1 ==> forall g | 0 <= g < 3 :: |groups[g]| == Pow(3, n)
    ensures n == 5 ==> |groups[0]| == 243
  {
    var triangle := NewSierpinskiTriangle();
    var r := triangle.ApplyTransformations(n);
    assert r.Success?;
    groups := r.value;
    SubdivideCount(SierpinskiMatrices(), UnitSquarePoints(), n);
    assert Pow(3, 5) == 243;
  }
}
