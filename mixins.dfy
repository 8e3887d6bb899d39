/**
 * `TransformerMixin` of fractal_designer/mixins/transformer.py: the same
 * subdivision, but run for one round fewer than the iteration count, and
 * stored in the field `polygons` instead of being returned.
 */
module Mixins {
  import opened Wrappers
  import opened Arrays
  import opened Arith
  import opened AffineMaps
  import opened Subdivision

  class TransformerMixin {
    var transformationMatrices: seq<Mat>
    var polygons: seq<Mat>

    /** `__init__`: both lists start empty. */
    constructor ()
      ensures transformationMatrices == [] && polygons == []
    {
      transformationMatrices := [];
      polygons := [];
    }

    /** `add_transformation`: appends the object's matrix if it is 3x3, raises otherwise. */
    method AddTransformation(ifs: IFS) returns (outcome: Outcome)
      modifies this`transformationMatrices
      ensures outcome.Pass? <==> HasShape(ifs.matrix, 3, 3)
      ensures outcome.Pass? ==> transformationMatrices == old(transformationMatrices) + [ifs.matrix]
      ensures outcome.Fail? ==> transformationMatrices == old(transformationMatrices)
                                && outcome.error == AssertionError(ShapeMessage)
      ensures polygons == old(polygons)
    {
      var checked := AssertTransformationShape(ifs.matrix, (3, 3));
      if checked.Failure? {
        return Fail(checked.error);
      }
      transformationMatrices := transformationMatrices + [checked.value];
      outcome := Pass;
    }

    /**
     * `apply_polygon_transformation`: a polygon that is not 3x4 raises before any field
     * changes; otherwise `iterations - 1` rounds are run (`range(1, iterations)`) and their
     * result replaces `polygons` wholesale: `[]` for `iterations <= 1`, `k^(iterations-1)`
     * polygons otherwise. The matrices are left as they are.
     */
    method ApplyPolygonTransformation(polygon: Mat, iterations: int) returns (outcome: Outcome)
      modifies this`polygons
      ensures transformationMatrices == old(transformationMatrices)
      ensures outcome.Pass? <==> HasShape(polygon, 3, 4)
      ensures outcome.Fail? ==> polygons == old(polygons) && outcome.error == AssertionError(ShapeMessage)
      ensures outcome.Pass? ==> polygons == Subdivide(transformationMatrices, polygon, iterations - 1)
      ensures outcome.Pass? && iterations <= 1 ==> polygons == []
      ensures outcome.Pass? && iterations >= 2 ==> |polygons| == Pow(|transformationMatrices|, iterations - 1)
    {
      var checked := AssertTransformationShape(polygon, (3, 4));
      if checked.Failure? {
        return Fail(checked.error);
      }
      var seed := checked.value;
      var oldPolygons := [seed];
      var newPolygons := [];
      var i := 1;
      while i < iterations
        invariant 1 <= i <= if iterations < 1 then 1 else iterations
        invariant oldPolygons == Iterate(transformationMatrices, [seed], i - 1)
        invariant newPolygons == if i == 1 then [] else oldPolygons
      {
        newPolygons := SubdivideOnce(transformationMatrices, oldPolygons);
        assert newPolygons == Iterate(transformationMatrices, [seed], i);
        oldPolygons := newPolygons;
        i := i + 1;
      }
      assert newPolygons == Subdivide(transformationMatrices, seed, iterations - 1) by {
        if iterations >= 2 {
          assert i == iterations;
        }
      }
      polygons := newPolygons;
      SubdivideCount(transformationMatrices, seed, iterations - 1);
      outcome := Pass;
    }
  }
}
