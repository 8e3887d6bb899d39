/**
 * fractal_designer/transformers/: the abstract `Transformer` and its one
 * concrete subclass `PolygonTransformer`. Without inheritance, the class below
 * carries the inherited fields and methods of `Transformer` together with the
 * override of `apply_transformation`; the abstract method itself is the
 * function `AbstractApplyTransformation`.
 */
module Transformers {
  import opened Wrappers
  import opened Arrays
  import opened AffineMaps
  import opened Shapes
  import opened Subdivision

  /** `Transformer.apply_transformation`: the abstract base method raises `NotImplementedError` for every argument. */
  function AbstractApplyTransformation(shapeToTransform: Square, numIterations: int): (r: Result<seq<Mat>>)
    ensures r.Failure? && r.error.NotImplementedError?
  {
    Failure(NotImplementedError)
  }

  class PolygonTransformer {
    /** The stored 3x3 matrices, in the order they were added. */
    var transformationMatrices: seq<Mat>
    /** The seed shapes `apply_transformations` iterates over. */
    var polygons: seq<Square>

    /** `Transformer.__init__`: no matrices and no seed shapes. */
    constructor ()
      ensures transformationMatrices == [] && polygons == []
    {
      transformationMatrices := [];
      polygons := [];
    }

    /**
     * `add_transformation`: appends the object's matrix after passing the 3x3 shape
     * guard; a matrix of any other shape raises and nothing changes.
     */
    method AddTransformation(ifs: IFS) returns (outcome: Outcome)
      modifies this`transformationMatrices
      ensures outcome.Pass? <==> HasShape(ifs.matrix, 3, 3)
      ensures outcome.Pass? ==> transformationMatrices == old(transformationMatrices) + [ifs.matrix]
      ensures outcome.Fail? ==> transformationMatrices == old(transformationMatrices)
                                && outcome.error == AssertionError(ShapeMessage)
      ensures polygons == old(polygons)
    {
      var checked := AssertTransformationShape(ifs.matrix, (3, 3));
      if checked.Failure? {
        return Fail(checked.error);
      }
      transformationMatrices := transformationMatrices + [checked.value];
      outcome := Pass;
    }

    /**
     * `PolygonTransformer.apply_transformation`: checks that the shape's points are
     * 3x4, then runs `numIterations` rounds of subdivision with the stored matrices
     * (none when `numIterations <= 0`, giving `[]`).
     */
    method ApplyTransformation(shapeToTransform: Square, numIterations: int) returns (r: Result<seq<Mat>>)
      ensures r.Success? <==> HasShape(shapeToTransform.points, 3, 4)
      ensures r.Success? ==> r.value == Subdivide(transformationMatrices, shapeToTransform.points, numIterations)
      ensures r.Failure? ==> r.error == AssertionError(ShapeMessage)
    {
      var checked := AssertTransformationShape(shapeToTransform.points, (3, 4));
      if checked.Failure? {
        return Failure(checked.error);
      }
      var polygonPoints := checked.value;
      var oldPoints := [polygonPoints];
      var newPoints := [];
      var i := 1;
      while i < numIterations + 1
        invariant 1 <= i <= if numIterations < 0 then 1 else numIterations + 1
        invariant oldPoints == Iterate(transformationMatrices, [polygonPoints], i - 1)
        invariant newPoints == if i == 1 then [] else oldPoints
      {
        newPoints := SubdivideOnce(transformationMatrices, oldPoints);
        oldPoints := newPoints;
        i := i + 1;
      }
      r := Success(newPoints);
    }

    /**
     * `apply_transformations`: one subdivision result per seed shape, in the order of
     * `polygons`; `[]` when there are none. A seed that is not 3x4 raises.
     */
    method ApplyTransformations(numIterations: int) returns (r: Result<seq<seq<Mat>>>)
      ensures r.Success? <==> forall q | 0 <= q < |polygons| :: HasShape(polygons[q].points, 3, 4)
      ensures r.Success? ==> |r.value| == |polygons|
      ensures r.Success? ==> forall q | 0 <= q < |polygons| ::
                               r.value[q] == Subdivide(transformationMatrices, polygons[q].points, numIterations)
      ensures r.Failure? ==> r.error == AssertionError(ShapeMessage)
    {
      var transformations := [];
      for q := 0 to |polygons|
        invariant forall s | 0 <= s < q :: HasShape(polygons[s].points, 3, 4)
        invariant |transformations| == q
        invariant forall s | 0 <= s < q :: transformations[s] == Subdivide(transformationMatrices, polygons[s].points, numIterations)
      {
        var result := ApplyTransformation(polygons[q], numIterations);
        if result.Failure? {
          return Failure(result.error);
        }
        transformations := transformations + [result.value];
      }
      r := Success(transformations);
    }
  }
}
