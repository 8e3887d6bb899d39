# fractal_designer: the Iterated Function System engine

This project models the engine behind fractal_designer's pictures and proves properties of that model. An Iterated Function System (IFS) is a finite list of affine maps of the plane. The model covers four parts.

- **Affine maps in homogeneous form.** The `IFS` object holds the 3×3 matrix `[[a, b, e], [c, d, f], [0, 0, 1]]`. The web app builds the same matrix from each card of user input. `AffineMaps.Affine` holds the six coefficients as reals.
- **The shape guard.** `assert_transformation_shape` returns its argument when the shape matches. Otherwise it raises `AssertionError("Shape does not match")`.
- **Discrete subdivision.** Each round applies every transform to every polygon of the previous round. The output is polygon-major, transform-minor. The loop appears in three places:
  - `PolygonTransformer.apply_transformation` runs N rounds;
  - `TransformerMixin.apply_polygon_transformation` runs N−1 rounds and stores the result in a field;
  - the discrete branch of the web app's `compute_transformation` runs N rounds.

  All three are proved against the functions `Subdivision.Round`, `Iterate` and `Subdivide`. The Sierpinski triangle is a concrete instance with three maps and three seeds.
- **The web app.**
  - The chaos game: weight correction, then a trajectory of points.
  - The plotting bookkeeping: stride selection of the series, flattening polygons into x/y lists with `None` separators, and the continuous series.

Arrays are `seq<seq<real>>`: a list of rows, as numpy stores a 2-D array. A 3×n polygon holds its vertices as columns with homogeneous coordinate 1. Python exceptions become the `Wrappers.Result` and `Wrappers.Outcome` values.

Classes whose methods update fields are Dafny classes:
- `Transformers.PolygonTransformer`;
- `Mixins.TransformerMixin`.

`PolygonTransformer` carries the members it inherits from the abstract `Transformer`. The abstract base `apply_transformation` is the function `Transformers.AbstractApplyTransformation`. The Python imports name `fractal_designer.custom_types`; the model takes its definitions from fractal_designer/types.py.

Several Python loops become Dafny methods with loop invariants, each proved equal to a specification function:
- the subdivision loop;
- the chaos-game loop;
- the card-to-matrix and weight loops;
- the stride, flatten and scatter loops.

## Model

| member | source | states |
|---|---|---|
| AffineMaps.NewIFS | fractal_designer/IFS.py:6-7 | For all arguments (defaults 1, 0, 0, 1, 0, 0), the matrix is 3×3 with bottom row `[0, 0, 1]`, so it passes the 3×3 shape guard |
| AffineMaps.MatrixLayout | fractal_designer/IFS.py:6-7 | Row 0 is `[a, b, e]` and row 1 is `[c, d, f]`, so the translation is in the third column; the default arguments give the 3×3 identity matrix |
| AffineMaps.MatrixApplies | fractal_designer/IFS.py:7 | The matrix times `(x, y, 1)` is `(a x + b y + e, c x + d y + f, 1)`: the map's image, and the homogeneous coordinate is kept |
| AffineMaps.ProductIsComposition | fractal_designer/IFS.py:7 | The product of two such matrices is again one with bottom row `[0, 0, 1]`; it is the matrix of the composed map |
| AffineMaps.AfterApplies | fractal_designer/IFS.py:7 | The composed map applied to a point equals the inner map, then the outer map |
| AffineMaps.DefaultIsIdentity | fractal_designer/IFS.py:6-7 | `IFS()` with default arguments leaves every 3-row array unchanged under `@` |
| Arrays.AssertTransformationShape | fractal_designer/types.py:7-9 | Succeeds exactly when both dimensions match; then it returns the very same array, which has the requested shape; otherwise it fails with `AssertionError("Shape does not match")` |
| Arrays.TransposedShapeRejected | fractal_designer/types.py:8 | A transposed array (cols × rows instead of rows × cols, rows ≠ cols) is rejected |
| Arrays.MatMulColumns | fractal_designer/transformers/polygon_transformer.py:23 | `transformation @ polygon` transforms each vertex column separately |
| Arrays.AffineKeepsPolygon | fractal_designer/transformers/polygon_transformer.py:23 | An affine matrix times a 3×n polygon is a 3×n polygon with homogeneous row 1; the formulas give each vertex's new x and y |
| Shapes.NewSquare | fractal_designer/shapes/square.py:7-9 | The colour is kept; `points` is 3×4; its vertex columns are (0,0), (0,1), (1,1), (1,0) in that order with homogeneous coordinate 1; every coordinate is in [0, 1] |
| Shapes.UnitSquareFacts | fractal_designer/shapes/square.py:9 | The transposed vertex array is a 4-vertex polygon with those columns, inside the unit square |
| Subdivision.RoundLength | fractal_designer/transformers/polygon_transformer.py:20-23 | One round yields one polygon per (polygon, transform) pair |
| Subdivision.RoundAt | fractal_designer/transformers/polygon_transformer.py:20-23 | Element `p·k + t` of a round is transform `t` applied to polygon `p` of the previous round |
| Subdivision.IterateLength | fractal_designer/transformers/polygon_transformer.py:19-25 | After n rounds from s seeds there are s·kⁿ polygons |
| Subdivision.SubdivideCount | fractal_designer/transformers/polygon_transformer.py:16-25 | The result has kᴺ polygons for N ≥ 1; it is `[]`, not the seed, for N ≤ 0; it is `[]` when k = 0 |
| Subdivision.LastTransform | fractal_designer/transformers/polygon_transformer.py:19-25 | Element j of the result was made last by transform `j % k` from element `j / k` of the previous round |
| Subdivision.Digits | fractal_designer/transformers/polygon_transformer.py:19-25 | The n base-k digits of a position: n of them, each below k |
| Subdivision.DigitsRoundTrip | fractal_designer/transformers/polygon_transformer.py:19-25 | Reading the digits back gives the position, for every position below kⁿ |
| Subdivision.IterateAt | fractal_designer/transformers/polygon_transformer.py:19-25 | Element j after n rounds is the seed transformed by the transforms named by j's base-k digits, most significant digit applied first |
| Subdivision.SubdivideLineage | fractal_designer/transformers/polygon_transformer.py:19-25 | The same lineage statement for the result of N ≥ 1 rounds |
| Subdivision.IteratePolygons | fractal_designer/transformers/polygon_transformer.py:23 | With affine transforms, every polygon after any number of rounds keeps its vertex count and homogeneous coordinate 1 |
| Subdivision.SubdividePolygons | fractal_designer/transformers/polygon_transformer.py:19-27 | The same for the result from one seed |
| Subdivision.SubdivideOnce | fractal_designer/transformers/polygon_transformer.py:20-25 | The nested append loops compute exactly one round |
| Transformers.AbstractApplyTransformation | fractal_designer/transformers/transformer.py:16-18 | The abstract `apply_transformation` raises `NotImplementedError` for every argument |
| Transformers.PolygonTransformer.constructor | fractal_designer/transformers/transformer.py:8-10 | A new transformer has no matrices and no seed polygons |
| Transformers.PolygonTransformer.AddTransformation | fractal_designer/transformers/transformer.py:12-14 | It succeeds exactly for 3×3 matrices. On success it appends exactly that matrix at the end and keeps the earlier ones in order. On failure it raises the assertion error and changes nothing. The seeds are untouched |
| Transformers.PolygonTransformer.ApplyTransformation | fractal_designer/transformers/polygon_transformer.py:13-27 | It succeeds exactly for 3×4 points, returning N rounds of subdivision of the seed with the stored matrices. Other seeds raise the assertion error. No field changes |
| Transformers.PolygonTransformer.ApplyTransformations | fractal_designer/transformers/transformer.py:20-25 | One result per seed, in seed order, each the N-round subdivision of that seed; `[]` with no seeds; any seed that is not 3×4 raises the assertion error |
| Mixins.TransformerMixin.constructor | fractal_designer/mixins/transformer.py:6-9 | No matrices and no polygons |
| Mixins.TransformerMixin.AddTransformation | fractal_designer/mixins/transformer.py:11-12 | It appends one 3×3 matrix at the end. Any other shape raises and changes nothing. `polygons` is untouched |
| Mixins.TransformerMixin.ApplyPolygonTransformation | fractal_designer/mixins/transformer.py:14-27 | A polygon that is not 3×4 is rejected with no field changed. Otherwise `polygons` is replaced wholesale by n−1 rounds of subdivision: `[]` for n ≤ 1, and k^(n−1) polygons for n ≥ 2. The matrices are unchanged |
| Sierpinski.NewSierpinskiTriangle | fractal_designer/shapes/sierpinski_triangle.py:8-13 | The seeds are the squares "r", "g", "b" in that order. The matrices are the three half-scale maps translated by (0, 0), (0.25, 0.5) and (0.5, 0), in that order |
| Sierpinski.SierpinskiInUnitSquare | fractal_designer/shapes/sierpinski_triangle.py:11-13 | For every N, every output vertex lies in [0, 1]×[0, 1] |
| Sierpinski.SierpinskiGroups | fractal_designer/windows/fractal.py:26-27 | `apply_transformations(N)` gives 3 identical groups of 3ᴺ polygons; with N = 5 that is 243 each |
| AppCompute.CardMatrix | fractal_designer/app.py:98-106 | A card's values `[a, b, c, d, e, f, p]` give the same matrix as `IFS(a, b, c, d, e, f)` |
| AppCompute.WeightNotInMatrix | fractal_designer/app.py:98-106 | The card's weight p is not part of its matrix |
| AppCompute.BuildTransformations | fractal_designer/app.py:97-106 | One matrix per card, in card order, each affine |
| AppCompute.DiscreteRound | fractal_designer/app.py:115-119 | One round of the app's loop is one subdivision round. Reassigning `old_points` inside the polygon loop does not change it, and `old_points` ends equal to the new round |
| AppCompute.ComputeDiscrete | fractal_designer/app.py:109-119 | N rounds from the unit square: the same subdivision as `PolygonTransformer`, so the count, order and lineage lemmas apply |
| AppCompute.ConstantSum | fractal_designer/app.py:129 | k copies of c sum to k·c |
| AppCompute.CorrectWeights | fractal_designer/app.py:128-129 | The length stays k. Weights summing to exactly 1 are kept; otherwise every entry becomes 1/k. For k > 0 the result sums to 1 over the reals |
| AppCompute.TrajectoryStep | fractal_designer/app.py:122-141 | The trajectory has one point per draw, and point t is transform `draws[t]` applied to point t−1, with point 0 taken from the origin (0, 0, 1) |
| AppCompute.TrajectoryLength | fractal_designer/app.py:137-141 | M draws give exactly M points |
| AppCompute.TrajectoryHomogeneous | fractal_designer/app.py:137-141 | With affine transforms every sampled point is `(x, y, 1)` |
| AppCompute.ChaosGame | fractal_designer/app.py:122-141 | The sampling loop produces exactly the trajectory of the drawn indices |
| AppCompute.ComputeTransformation | fractal_designer/app.py:90-143 | Discrete mode gives the N-round subdivision of the unit square by the card matrices. Continuous mode with no cards gives `[]` and no sampling. Otherwise the weights are the cards' corrected weights, the notice is shown exactly when they do not sum to 1, and the points are the trajectory. The notice is never shown in discrete mode or with no cards |
| AppPlot.RangeStepAt | fractal_designer/app.py:161 | Position t of `range(start, stop, step)` exists exactly when `start + t·step < stop`, and then it holds that value |
| AppPlot.GroupMember | fractal_designer/app.py:159-162 | Index j is in series i's stride exactly when `j < len` and `j % k == i`, at position `j / k`. So the k series partition the indices |
| AppPlot.SelectGroup | fractal_designer/app.py:161-162 | The selection loop collects exactly the elements at `range(i, len, k)`, in order |
| AppPlot.StrideLength | fractal_designer/app.py:161 | With i < k, `range(i, p·k, k)` has p elements |
| AppPlot.GroupOfRound | fractal_designer/app.py:159-162 | When the stride is the number of transforms, discrete series i is transform i applied to each polygon of the previous round, in order |
| AppPlot.SeriesOfSubdivision | fractal_designer/app.py:159-162 | The same for the app's discrete output after N ≥ 1 rounds |
| AppPlot.JoinedValues | fractal_designer/app.py:164-176 | Dropping the `None`s of a flattened list gives every polygon's coordinates, in order |
| AppPlot.JoinedSeparators | fractal_designer/app.py:164-176 | A flattened list of n ≥ 1 polygons has exactly n−1 `None` separators |
| AppPlot.JoinedLength | fractal_designer/app.py:164-176 | A flattened list's length is total vertices + count − 1, or 0 when there are no polygons |
| AppPlot.TerminatedThenPop | fractal_designer/app.py:166-176 | Appending `None` after every polygon and popping the last entry gives the list with one separator between consecutive polygons and none at the end |
| AppPlot.FlattenPolygons | fractal_designer/app.py:164-176 | The extend/append/pop loop produces exactly the joined x row and the joined y row |
| AppPlot.DiscreteSeries | fractal_designer/app.py:158-176 | One series per i below `_num_transformations` (none when it is negative). Each series is the flattened x and y lists of the polygons at `range(i, len, k)` |
| AppPlot.ScatterCoordinates | fractal_designer/app.py:194-200 | The x and y lists are the first and second coordinates of each scatter point, in order |
| AppPlot.AccumulatedMember | fractal_designer/app.py:188-192 | Because `scatter_points` is never reset, series i holds exactly the points whose index j has `j % k ≤ i` |
| AppPlot.ContinuousSeries | fractal_designer/app.py:187-200 | One series per i. Series i plots every point gathered in steps 0..i: groups 0..i, in order |
| AppPlot.AccumulationCounterexample | fractal_designer/app.py:188-192 | With two points and stride 2, series 1 as written plots both points, though only index 1 lies in stride group 1 |
| AppPlot.ContinuousSeriesPerGroup | fractal_designer/app.py:188-200 | With `scatter_points` reset for each series, series i plots exactly the points at `range(i, len, k)` |

## Left out

- The Qt GUI is left out: windows, widgets, menus, both graphics modules, the entry point and the actions. It is window and widget wiring with no logic. The one exception is the `apply_transformations(5)` call in fractal_designer/windows/fractal.py:27, which `Sierpinski.SierpinskiGroups` covers.
- fractal_designer/js/app.js is left out: it toggles the browser page and configures KaTeX.
- The prototype scripts are left out: fractal_designer/shiny_test/app.py, fractal_designer/shiny_test/app_core.py and fractal_designer/plot.py. Their only logic is further copies of the subdivision loop, which is modelled once in `Subdivision`.
- fractal_designer/mixins/shapes/square.py is left out: it is a dataclass duplicate of fractal_designer/shapes/square.py.
- Shiny's reactive plumbing is left out:
  - the card counter and transformation servers, which the model takes as a list of seven-value cards;
  - modals, colours and the `add_scatter`/figure calls. The model returns the x/y lists each `add_scatter` would receive, and `corrected` says whether the "Probability Error" notice is shown;
  - `_num_transformations`, which is an input, so it may differ from the number of cards.
- The weighted random draw (`random.choices`) is left out. The model takes the sequence of drawn transformation indices as an input, so M is its length. No distribution is modelled.
- Floats are modelled as exact reals. The test that the weights sum to exactly 1 is a real equality, and `1/k` is exact. So `AppCompute.CorrectWeights` proves a sum of exactly 1, which float rounding does not guarantee.
- The numpy shape of the sampled points is not modelled. `random.choices` returns a list, and `transformation @ point` then gains an array dimension. The model keeps each point a 3-vector, which is what the `reshape([3, 1])` in the plotting code reads back.
- Aliasing is not modelled: `old_points = new_points` in the Python loops makes two names share one list. The model's sequences are values, and the result is the same because each round builds a fresh `new_points`.
- Arrays with no rows are not modelled faithfully. `Arrays.HasShape(m, 0, c)` holds for every c, where numpy would report shape `(0,)`. No array in the source has zero rows.
- The shape guard is a Python `assert` (fractal_designer/types.py:8), which `python -O` removes. `Arrays.AssertTransformationShape`, both `AddTransformation` methods and the apply methods model it with assertions enabled.
- Python's refusal to instantiate the abstract `Transformer` class is not modelled. Only its abstract method's behaviour is: `Transformers.AbstractApplyTransformation`.
- The [-2, 2] bounds on the coefficient inputs exist only as widget limits in the page, so the model does not enforce them. There is no engine-side range check and no probability error: a weight sum other than 1 is corrected (`fractal_designer/app.py:128-135`, `AppCompute.CorrectWeights`), never rejected.

## Findings

| source | as written | input that shows it | evidently intended | confidence | as-written member | corrected member |
|---|---|---|---|---|---|---|
| fractal_designer/app.py:188-192 | `scatter_points` is created once, before the loop over series. Series i therefore plots stride groups 0..i (the indices j with j % k ≤ i), not stride group i alone | 2 sampled points, stride 2: series 1 plots both points, though only index 1 lies in stride group 1 | Plausibly, series i plots only the points at `range(i, len, k)`, as the discrete branch does when it resets `polygon_points` for each series. This is a plausible reading, not an evident one: in continuous mode a point is made by the randomly drawn transform (app.py:138), which `compute_transformation` does not return, and app.py:202 leaves the continuous colouring open. The corrected member still groups by index position, not by drawn transform | low to medium, not executed | AppPlot.ContinuousSeries, AppPlot.AccumulationCounterexample | AppPlot.ContinuousSeriesPerGroup, AppPlot.GroupMember |
