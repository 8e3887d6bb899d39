/**
 * The `IFS` object of fractal_designer/IFS.py: one affine map of the plane,
 * held as the 3x3 homogeneous matrix `[[a, b, e], [c, d, f], [0, 0, 1]]`.
 */
module AffineMaps {
  import opened Arrays

  /** An `IFS` object; its only attribute (also called `IFS` in the source) is the matrix. */
  datatype IFS = IFS(matrix: Mat)

  /** The six coefficients of the map (x, y) |-> (a x + b y + e, c x + d y + f). */
  datatype Affine = Affine(a: real, b: real, c: real, d: real, e: real, f: real) {

    /** The image of the point (x, y). */
    function Apply(x: real, y: real): (real, real) {
      (a * x + b * y + e, c * x + d * y + f)
    }

    /** The map "first `inner`, then this one". */
    function After(inner: Affine): Affine {
      Affine(a * inner.a + b * inner.c, a * inner.b + b * inner.d,
             c * inner.a + d * inner.c, c * inner.b + d * inner.d,
             a * inner.e + b * inner.f + e, c * inner.e + d * inner.f + f)
    }

    /** The `IFS` object built from these coefficients. */
    function ToIFS(): IFS {
      NewIFS(a, b, c, d, e, f)
    }
  }

  /**
   * `IFS(a, b, c, d, e, f)`, with the constructor's default arguments. The translation
   * `e, f` lands in the third column; the matrix is always 3x3 with bottom row `[0, 0, 1]`,
   * whatever the arguments.
   */
  function NewIFS(a: real := 1.0, b: real := 0.0, c: real := 0.0, d: real := 1.0, e: real := 0.0, f: real := 0.0): (ifs: IFS)
    ensures IsAffine(ifs.matrix)
    ensures AssertTransformationShape(ifs.matrix, (3, 3)).Success?
  {
    IFS([[a, b, e], [c, d, f], [0.0, 0.0, 1.0]])
  }

  /** The matrix of `IFS(a, ..., f)` applied to `(x, y, 1)` is `(a x + b y + e, c x + d y + f, 1)`. */
  lemma MatrixApplies(t: Affine, x: real, y: real)
    ensures MatVec(t.ToIFS().matrix, [x, y, 1.0]) == [t.Apply(x, y).0, t.Apply(x, y).1, 1.0]
  {
    var m := t.ToIFS().matrix;
    var v := [x, y, 1.0];
    assert m[0] == [t.a, t.b, t.e] && m[1] == [t.c, t.d, t.f];
    assert v[0] == x && v[1] == y;
    AffineApply(m, v);
    var r := MatVec(m, v);
    assert r[0] == t.a * x + t.b * y + t.e;
    assert r[1] == t.c * x + t.d * y + t.f;
    var q := [t.Apply(x, y).0, t.Apply(x, y).1, 1.0];
    assert |r| == 3 && r[2] == 1.0;
    assert r[0] == q[0] && r[1] == q[1] && r[2] == q[2];
  }

  /** The coefficients are where the constructor puts them: row 0 is `[a, b, e]`, row 1 is `[c, d, f]`. */
  lemma MatrixLayout(t: Affine)
    ensures t.ToIFS().matrix[0] == [t.a, t.b, t.e] && t.ToIFS().matrix[1] == [t.c, t.d, t.f]
    ensures NewIFS().matrix == [[1.0, 0.0, 0.0], [0.0, 1.0, 0.0], [0.0, 0.0, 1.0]]
  {
  }

  /** Row 0 of the product of the two matrices is row 0 of the composed map's matrix. */
  lemma ProductRow0(outer: Affine, inner: Affine)
    ensures MatMul(outer.ToIFS().matrix, inner.ToIFS().matrix)[0] == outer.After(inner).ToIFS().matrix[0]
  {
    var m, n := outer.ToIFS().matrix, inner.ToIFS().matrix;
    var w := outer.After(inner);
    MatrixLayout(outer);
    MatrixLayout(inner);
    MatrixLayout(w);
    ProductEntry(m, n, 0, 0);
    ProductEntry(m, n, 0, 1);
    ProductEntry(m, n, 0, 2);
    var r := MatMul(m, n)[0];
    assert |r| == 3 && r[0] == w.a && r[1] == w.b && r[2] == w.e;
  }

  /** Row 1 of the product of the two matrices is row 1 of the composed map's matrix. */
  lemma ProductRow1(outer: Affine, inner: Affine)
    ensures MatMul(outer.ToIFS().matrix, inner.ToIFS().matrix)[1] == outer.After(inner).ToIFS().matrix[1]
  {
    var m, n := outer.ToIFS().matrix, inner.ToIFS().matrix;
    var w := outer.After(inner);
    MatrixLayout(outer);
    MatrixLayout(inner);
    MatrixLayout(w);
    ProductEntry(m, n, 1, 0);
    ProductEntry(m, n, 1, 1);
    ProductEntry(m, n, 1, 2);
    var r := MatMul(m, n)[1];
    assert |r| == 3 && r[0] == w.c && r[1] == w.d && r[2] == w.f;
  }

  /** Row 2 of the product of the two matrices is `[0, 0, 1]`. */
  lemma ProductRow2(outer: Affine, inner: Affine)
    ensures MatMul(outer.ToIFS().matrix, inner.ToIFS().matrix)[2] == [0.0, 0.0, 1.0]
  {
    var m, n := outer.ToIFS().matrix, inner.ToIFS().matrix;
    ProductEntry(m, n, 2, 0);
    ProductEntry(m, n, 2, 1);
    ProductEntry(m, n, 2, 2);
    var r := MatMul(m, n)[2];
    assert |r| == 3 && r[0] == 0.0 && r[1] == 0.0 && r[2] == 1.0;
  }

  /**
   * The product of two such matrices is again one (bottom row `[0, 0, 1]`): it is the
   * matrix of the composed map, which is what repeated `@` in the subdivision relies on.
   */
  lemma ProductIsComposition(outer: Affine, inner: Affine)
    ensures MatMul(outer.ToIFS().matrix, inner.ToIFS().matrix) == outer.After(inner).ToIFS().matrix
    ensures IsAffine(MatMul(outer.ToIFS().matrix, inner.ToIFS().matrix))
  {
    var p := MatMul(outer.ToIFS().matrix, inner.ToIFS().matrix);
    var q := outer.After(inner).ToIFS().matrix;
    ProductRow0(outer, inner);
    ProductRow1(outer, inner);
    ProductRow2(outer, inner);
    assert |p| == 3 && p[0] == q[0] && p[1] == q[1] && p[2] == q[2];
  }

  /** `After` is composition of maps: applying the composed map is applying `inner`, then `outer`. */
  lemma AfterApplies(outer: Affine, inner: Affine, x: real, y: real)
    ensures outer.After(inner).Apply(x, y) == outer.Apply(inner.Apply(x, y).0, inner.Apply(x, y).1)
  {
    var u, v := inner.Apply(x, y).0, inner.Apply(x, y).1;
    var w := outer.After(inner);
    calc {
      outer.a * u + outer.b * v + outer.e;
      outer.a * (inner.a * x + inner.b * y + inner.e) + outer.b * (inner.c * x + inner.d * y + inner.f) + outer.e;
      (outer.a * inner.a + outer.b * inner.c) * x + (outer.a * inner.b + outer.b * inner.d) * y
        + (outer.a * inner.e + outer.b * inner.f + outer.e);
      w.a * x + w.b * y + w.e;
    }
    calc {
      outer.c * u + outer.d * v + outer.f;
      outer.c * (inner.a * x + inner.b * y + inner.e) + outer.d * (inner.c * x + inner.d * y + inner.f) + outer.f;
      (outer.c * inner.a + outer.d * inner.c) * x + (outer.c * inner.b + outer.d * inner.d) * y
        + (outer.c * inner.e + outer.d * inner.f + outer.f);
      w.c * x + w.d * y + w.f;
    }
    assert w.Apply(x, y).0 == outer.Apply(u, v).0 && w.Apply(x, y).1 == outer.Apply(u, v).1;
  }

  /** The default `IFS()` is the identity: it leaves every 3-row array unchanged. */
  lemma DefaultIsIdentity(p: Mat, n: nat)
    requires HasShape(p, 3, n) && n > 0
    ensures MatMul(NewIFS().matrix, p) == p
  {
    var m := NewIFS().matrix;
    var r := MatMul(m, p);
    forall i, j | 0 <= i < 3 && 0 <= j < n
      ensures r[i][j] == p[i][j]
    {
      var c := Column(p, j);
      assert c == [p[0][j], p[1][j], p[2][j]];
      Dot3(m[i], c);
    }
    assert |r| == 3 && forall i | 0 <= i < 3 :: |r[i]| == n && r[i] == p[i];
  }
}
