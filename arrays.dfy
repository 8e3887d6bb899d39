/**
 * The numpy arrays of the engine (fractal_designer/types.py): two-dimensional
 * arrays of reals, the shape guard applied to them, and the array operations
 * the engine uses (matrix product `@` and transpose `.T`, both read through
 * columns; a row slice `polygon[0, :]` is the row `p[0]` itself).
 */
module Arrays {
  import opened Wrappers

  /** A one-dimensional array, e.g. a homogeneous point `(x, y, 1)`. */
  type Vec = seq<real>

  /** A two-dimensional array, stored row by row. */
  type Mat = seq<seq<real>>

  /** Number of columns; 0 for an array without rows. */
  function Cols(m: Mat): nat {
    if |m| == 0 then 0 else |m[0]|
  }

  /** `m.shape == (rows, cols)`. */
  predicate HasShape(m: Mat, rows: int, cols: int) {
    |m| == rows && forall i | 0 <= i < |m| :: |m[i]| == cols
  }

  /** The message of the AssertionError raised by the shape guard. */
  const ShapeMessage: string := "Shape does not match"

  /** `assert_transformation_shape`: returns its argument itself when the shape matches, raises otherwise. */
  function AssertTransformationShape(arr: Mat, shape: (int, int)): (r: Result<Mat>)
    ensures r.Success? <==> HasShape(arr, shape.0, shape.1)
    ensures r.Success? ==> r.value == arr && HasShape(r.value, shape.0, shape.1)
    ensures r.Failure? ==> r.error == AssertionError(ShapeMessage)
  {
    if HasShape(arr, shape.0, shape.1) then Success(arr) else Failure(AssertionError(ShapeMessage))
  }

  /** Both dimensions are compared: a 4x3 array (the transpose of a polygon) fails the (3, 4) check and vice versa. */
  lemma TransposedShapeRejected(m: Mat, rows: nat, cols: nat)
    requires rows != cols && HasShape(m, cols, rows) && rows > 0
    ensures AssertTransformationShape(m, (rows, cols)).Failure?
  {
  }

  /** Inner product of two vectors (over the shorter length). */
  function Dot(u: Vec, v: Vec): real
    decreases |u|
  {
    if |u| == 0 || |v| == 0 then 0.0 else u[0] * v[0] + Dot(u[1..], v[1..])
  }

  /** Inner product of two 3-vectors written out. */
  lemma Dot3(u: Vec, v: Vec)
    requires |u| == 3 && |v| == 3
    ensures Dot(u, v) == u[0] * v[0] + u[1] * v[1] + u[2] * v[2]
  {
    assert u[1..][1..][1..] == [];
    assert Dot(u[1..][1..], v[1..][1..]) == u[2] * v[2];
  }

  /** Column `j` of `m`, i.e. `m[:, j]`. */
  function Column(m: Mat, j: nat): Vec {
    seq(|m|, i requires 0 <= i < |m| => if j < |m[i]| then m[i][j] else 0.0)
  }

  /** Matrix times vector. */
  function MatVec(m: Mat, v: Vec): Vec {
    seq(|m|, i requires 0 <= i < |m| => Dot(m[i], v))
  }

  /** The matrix product `a @ b`. */
  function MatMul(a: Mat, b: Mat): Mat {
    seq(|a|, i requires 0 <= i < |a| => seq(Cols(b), j requires 0 <= j < Cols(b) => Dot(a[i], Column(b, j))))
  }

  /** `m.T`. */
  function Transpose(m: Mat): Mat {
    seq(Cols(m), j requires 0 <= j < Cols(m) => Column(m, j))
  }

  /** The product has the rows of `a` and the columns of `b`; column `j` of the product is `a` applied to column `j` of `b`. */
  lemma MatMulColumns(a: Mat, b: Mat, rows: nat, cols: nat)
    requires HasShape(b, rows, cols) && rows > 0
    ensures HasShape(MatMul(a, b), |a|, cols)
    ensures forall j | 0 <= j < cols :: Column(MatMul(a, b), j) == MatVec(a, Column(b, j))
  {
  }

  /** Entry `(i, j)` of the product of two 3x3 matrices written out. */
  lemma ProductEntry(m: Mat, n: Mat, i: nat, j: nat)
    requires HasShape(m, 3, 3) && HasShape(n, 3, 3) && i < 3 && j < 3
    ensures MatMul(m, n)[i][j] == m[i][0] * n[0][j] + m[i][1] * n[1][j] + m[i][2] * n[2][j]
  {
    var col := Column(n, j);
    assert col == [n[0][j], n[1][j], n[2][j]];
    Dot3(m[i], col);
  }

  /** A homogeneous affine matrix: 3x3 with bottom row `[0, 0, 1]`. */
  predicate IsAffine(m: Mat) {
    HasShape(m, 3, 3) && m[2] == [0.0, 0.0, 1.0]
  }

  /** A homogeneous polygon with `n` vertices: a 3xn array whose bottom row is all ones. */
  predicate IsPolygon(p: Mat, n: nat) {
    HasShape(p, 3, n) && forall j | 0 <= j < n :: p[2][j] == 1.0
  }

  /** Applying an affine matrix to a homogeneous vector keeps the third coordinate 1. */
  lemma AffineApply(m: Mat, v: Vec)
    requires IsAffine(m) && |v| == 3 && v[2] == 1.0
    ensures MatVec(m, v) == [m[0][0] * v[0] + m[0][1] * v[1] + m[0][2],
                             m[1][0] * v[0] + m[1][1] * v[1] + m[1][2],
                             1.0]
  {
    Dot3(m[0], v);
    Dot3(m[1], v);
    Dot3(m[2], v);
    var r := MatVec(m, v);
    assert |r| == 3 && r[0] == Dot(m[0], v) && r[1] == Dot(m[1], v) && r[2] == Dot(m[2], v);
    assert r[0] == m[0][0] * v[0] + m[0][1] * v[1] + m[0][2];
    assert r[1] == m[1][0] * v[0] + m[1][1] * v[1] + m[1][2];
    assert r[2] == 1.0;
  }

  /** An affine matrix maps a homogeneous polygon to a homogeneous polygon with the same number of vertices, vertex by vertex. */
  lemma AffineKeepsPolygon(m: Mat, p: Mat, n: nat)
    requires IsAffine(m) && IsPolygon(p, n) && n > 0
    ensures IsPolygon(MatMul(m, p), n)
    ensures forall j | 0 <= j < n ::
      MatMul(m, p)[0][j] == m[0][0] * p[0][j] + m[0][1] * p[1][j] + m[0][2] &&
      MatMul(m, p)[1][j] == m[1][0] * p[0][j] + m[1][1] * p[1][j] + m[1][2]
  {
    var r := MatMul(m, p);
    forall j | 0 <= j < n
      ensures r[0][j] == m[0][0] * p[0][j] + m[0][1] * p[1][j] + m[0][2]
      ensures r[1][j] == m[1][0] * p[0][j] + m[1][1] * p[1][j] + m[1][2]
      ensures r[2][j] == 1.0
    {
      var c := Column(p, j);
      assert c == [p[0][j], p[1][j], p[2][j]];
      Dot3(m[0], c);
      Dot3(m[1], c);
      Dot3(m[2], c);
    }
  }
}
