/**
 * The `Square` shape of fractal_designer/shapes/square.py: a colour and the
 * homogeneous unit square, one vertex per column.
 */
module Shapes {
  import opened Arrays

  /** A `Square` object: the colour it was given and its 3x4 point array. */
  datatype Square = Square(color: string, points: Mat)

  /** The four vertices `(0,0,1), (0,1,1), (1,1,1), (1,0,1)` in drawing order, one per row. */
  const UnitSquareVertices: Mat := [[0.0, 0.0, 1.0], [0.0, 1.0, 1.0], [1.0, 1.0, 1.0], [1.0, 0.0, 1.0]]

  /** The seed polygon: the vertex list transposed, so that each vertex is a column. */
  function UnitSquarePoints(): Mat {
    Transpose(UnitSquareVertices)
  }

  /**
   * `Square(color)`: the colour is kept as given; the points have 3 rows and 4 vertex
   * columns, in the order (0,0), (0,1), (1,1), (1,0); each vertex is homogeneous and
   * lies in the unit square.
   */
  function NewSquare(color: string): (s: Square)
    ensures s.color == color
    ensures HasShape(s.points, 3, 4) && IsPolygon(s.points, 4)
    ensures forall j | 0 <= j < 4 :: Column(s.points, j) == UnitSquareVertices[j]
    ensures InUnitSquare(s.points, 4)
  {
    UnitSquareFacts();
    Square(color, UnitSquarePoints())
  }

  /** Every vertex of the `n`-vertex polygon `p` has x and y in [0, 1]. */
  predicate InUnitSquare(p: Mat, n: nat)
    requires HasShape(p, 3, n)
  {
    forall j | 0 <= j < n :: 0.0 <= p[0][j] <= 1.0 && 0.0 <= p[1][j] <= 1.0
  }

  lemma UnitSquareFacts()
    ensures IsPolygon(UnitSquarePoints(), 4)
    ensures forall j | 0 <= j < 4 :: Column(UnitSquarePoints(), j) == UnitSquareVertices[j]
    ensures InUnitSquare(UnitSquarePoints(), 4)
  {
    var v := UnitSquareVertices;
    var p := UnitSquarePoints();
    assert Cols(v) == 3;
    assert Column(v, 0) == [0.0, 0.0, 1.0, 1.0];
    assert Column(v, 1) == [0.0, 1.0, 1.0, 0.0];
    assert Column(v, 2) == [1.0, 1.0, 1.0, 1.0];
    assert p == [[0.0, 0.0, 1.0, 1.0], [0.0, 1.0, 1.0, 0.0], [1.0, 1.0, 1.0, 1.0]];
  }
}
