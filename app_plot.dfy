/**
 * The plotting effect of the web app (fractal_designer/app.py): the index
 * bookkeeping that splits `compute_transformation`'s output into one plotted
 * series per transformation. `numTransformations` is the app's card counter,
 * taken here as an input.
 */
module AppPlot {
  import opened Wrappers
  import opened Arrays
  import opened Arith
  import opened Subdivision

  // ---- strides ----

  /** `range(start, stop, step)` for a positive step. */
  function RangeStep(start: int, stop: int, step: int): (r: seq<int>)
    requires step > 0
    ensures forall t | 0 <= t < |r| :: start <= r[t] < stop
    decreases stop - start
  {
    if start >= stop then [] else [start] + RangeStep(start + step, stop, step)
  }

  /** Position `t` of the range is `start + t * step`, and it exists exactly when that is below `stop`. */
  lemma {:induction false} RangeStepAt(start: int, stop: int, step: int, t: nat)
    requires step > 0
    ensures t < |RangeStep(start, stop, step)| <==> start + t * step < stop
    ensures t < |RangeStep(start, stop, step)| ==> RangeStep(start, stop, step)[t] == start + t * step
    decreases stop - start
  {
    if start < stop && t > 0 {
      RangeStepAt(start + step, stop, step, t - 1);
      NextBlock(t - 1, step);
    } else if start >= stop {
      MulNonneg(t, step);
    }
  }

  /** The elements of `s` at the positions `idx`, in that order. */
  function Pick<T>(s: seq<T>, idx: seq<int>): (r: seq<T>)
    requires forall t | 0 <= t < |idx| :: 0 <= idx[t] < |s|
    ensures |r| == |idx| && forall t | 0 <= t < |idx| :: r[t] == s[idx[t]]
  {
    seq(|idx|, t requires 0 <= t < |idx| => s[idx[t]])
  }

  /** `[s[j] for j in range(i, len(s), k)]`. */
  function Group<T>(s: seq<T>, i: nat, k: nat): seq<T>
    requires k > 0
  {
    Pick(s, RangeStep(i, |s|, k))
  }

  /**
   * For `0 <= i < k`, index `j` is in `range(i, len, k)` exactly when `j < len` and
   * `j % k == i`: the k groups partition the indices, index `j` falling in group `j % k`
   * at position `j / k`.
   */
  lemma GroupMember(len: int, k: nat, i: nat, j: int)
    requires 0 <= i < k && 0 <= j
    ensures j in RangeStep(i, len, k) <==> j < len && j % k == i
    ensures j < len && j % k == i ==> j / k < |RangeStep(i, len, k)| && RangeStep(i, len, k)[j / k] == j
  {
    var r := RangeStep(i, len, k);
    DivModNat(j, k);
    if j in r {
      var t :| 0 <= t < |r| && r[t] == j;
      RangeStepAt(i, len, k, t);
      DivModBlock(j, k, t, i);
    }
    if j < len && j % k == i {
      RangeStepAt(i, len, k, j / k);
    }
  }

  /** The selection loop of one discrete series. */
  method SelectGroup<T>(s: seq<T>, i: nat, k: nat) returns (group: seq<T>)
    requires k > 0
    ensures group == Group(s, i, k)
  {
    group := [];
    var j := i;
    while j < |s|
      invariant i <= j
      invariant Group(s, i, k) == group + Pick(s, RangeStep(j, |s|, k))
      decreases |s| - j
    {
      assert RangeStep(j, |s|, k) == [j] + RangeStep(j + k, |s|, k);
      PickAppend(s, [j], RangeStep(j + k, |s|, k));
      assert Pick(s, [j]) == [s[j]];
      group := group + [s[j]];
      j := j + k;
    }
    assert RangeStep(j, |s|, k) == [];
  }

  /** `range(i, p * k, k)` has `p` elements when `0 <= i < k`. */
  lemma StrideLength(i: nat, k: nat, p: nat)
    requires i < k
    ensures |RangeStep(i, p * k, k)| == p
  {
    var n := |RangeStep(i, p * k, k)|;
    RangeStepAt(i, p * k, k, p);
    if n < p {
      RangeStepAt(i, p * k, k, n);
      MulMono(n + 1, p, k);
      NextBlock(n, k);
    }
  }

  /**
   * When the stride is the number of transforms, discrete series `i` is exactly the last
   * round's polygons made by transform `i`: transform `i` applied to each polygon of the
   * previous round, in order.
   */
  lemma GroupOfRound(ts: seq<Mat>, ps: seq<Mat>, i: nat)
    requires i < |ts|
    ensures Group(Round(ts, ps), i, |ts|) == seq(|ps|, p requires 0 <= p < |ps| => MatMul(ts[i], ps[p]))
  {
    var k := |ts|;
    RoundLength(ts, ps);
    StrideLength(i, k, |ps|);
    var g := Group(Round(ts, ps), i, k);
    forall p | 0 <= p < |ps|
      ensures g[p] == MatMul(ts[i], ps[p])
    {
      RangeStepAt(i, |ps| * k, k, p);
      RoundAt(ts, ps, p * k + i);
      DivModBlock(p * k + i, k, p, i);
    }
  }

  /** The same for the app's discrete output after `n >= 1` rounds. */
  lemma SeriesOfSubdivision(ts: seq<Mat>, seed: Mat, n: int, i: nat)
    requires n >= 1 && i < |ts|
    ensures Group(Subdivide(ts, seed, n), i, |ts|)
            == seq(|Iterate(ts, [seed], n - 1)|, p requires 0 <= p < |Iterate(ts, [seed], n - 1)| =>
                   MatMul(ts[i], Iterate(ts, [seed], n - 1)[p]))
  {
    GroupOfRound(ts, Iterate(ts, [seed], n - 1), i);
  }

  // ---- flattening a discrete series ----

  /** Row `r` of each polygon (`polygon[r, :]`), in order. */
  function RowOf(polygons: seq<Mat>, r: nat): seq<seq<real>>
    requires forall q | 0 <= q < |polygons| :: r < |polygons[q]|
  {
    seq(|polygons|, q requires 0 <= q < |polygons| => polygons[q][r])
  }

  function Somes(xs: seq<real>): seq<Option<real>> {
    seq(|xs|, i requires 0 <= i < |xs| => Some(xs[i]))
  }

  /** The rows' values in order, with exactly one `None` between consecutive rows. */
  function Joined(rows: seq<seq<real>>): seq<Option<real>>
    decreases |rows|
  {
    if |rows| == 0 then []
    else if |rows| == 1 then Somes(rows[0])
    else Joined(rows[..|rows| - 1]) + [None] + Somes(rows[|rows| - 1])
  }

  function TotalLength(rows: seq<seq<real>>): nat {
    if |rows| == 0 then 0 else TotalLength(rows[..|rows| - 1]) + |rows[|rows| - 1]|
  }

  function Concat(rows: seq<seq<real>>): seq<real> {
    if |rows| == 0 then [] else Concat(rows[..|rows| - 1]) + rows[|rows| - 1]
  }

  /** The values of a list, its `None`s dropped. */
  function Values(xs: seq<Option<real>>): seq<real> {
    if |xs| == 0 then [] else Values(xs[..|xs| - 1]) + (if xs[|xs| - 1].Some? then [xs[|xs| - 1].value] else [])
  }

  function NoneCount(xs: seq<Option<real>>): nat {
    if |xs| == 0 then 0 else NoneCount(xs[..|xs| - 1]) + (if xs[|xs| - 1].None? then 1 else 0)
  }

  lemma {:induction false} ValuesAppend(xs: seq<Option<real>>, ys: seq<Option<real>>)
    ensures Values(xs + ys) == Values(xs) + Values(ys)
    ensures NoneCount(xs + ys) == NoneCount(xs) + NoneCount(ys)
    decreases |ys|
  {
    if |ys| == 0 {
      assert xs + ys == xs;
    } else {
      var n := |ys| - 1;
      assert (xs + ys)[..|xs + ys| - 1] == xs + ys[..n];
      ValuesAppend(xs, ys[..n]);
    }
  }

  lemma {:induction false} SomesValues(xs: seq<real>)
    ensures Values(Somes(xs)) == xs && NoneCount(Somes(xs)) == 0
    decreases |xs|
  {
    if |xs| > 0 {
      var n := |xs| - 1;
      assert Somes(xs)[..n] == Somes(xs[..n]);
      SomesValues(xs[..n]);
      assert xs[..n] + [xs[n]] == xs;
    }
  }

  lemma SeparatorValues()
    ensures Values([None]) == [] && NoneCount([None]) == 1
  {
    var sep: seq<Option<real>> := [None];
    assert sep[..0] == [];
  }

  /** Dropping the flattened list's `None`s gives every row's values in order. */
  lemma {:induction false} JoinedValues(rows: seq<seq<real>>)
    ensures Values(Joined(rows)) == Concat(rows)
    decreases |rows|
  {
    if |rows| == 1 {
      SomesValues(rows[0]);
      assert rows[..0] == [];
    } else if |rows| > 1 {
      var n := |rows| - 1;
      JoinedValues(rows[..n]);
      SomesValues(rows[n]);
      SeparatorValues();
      ValuesAppend(Joined(rows[..n]), [None]);
      ValuesAppend(Joined(rows[..n]) + [None], Somes(rows[n]));
    }
  }

  /** The flattened list of `count > 0` rows has exactly `count - 1` separators. */
  lemma {:induction false} JoinedSeparators(rows: seq<seq<real>>)
    requires |rows| > 0
    ensures NoneCount(Joined(rows)) == |rows| - 1
    decreases |rows|
  {
    if |rows| == 1 {
      SomesValues(rows[0]);
    } else {
      var n := |rows| - 1;
      JoinedSeparators(rows[..n]);
      SomesValues(rows[n]);
      SeparatorValues();
      ValuesAppend(Joined(rows[..n]), [None]);
      ValuesAppend(Joined(rows[..n]) + [None], Somes(rows[n]));
    }
  }

  /** Its length is the total number of values plus `count - 1`, and 0 for no rows. */
  lemma {:induction false} JoinedLength(rows: seq<seq<real>>)
    ensures |Joined(rows)| == if |rows| == 0 then 0 else TotalLength(rows) + |rows| - 1
    decreases |rows|
  {
    if |rows| == 1 {
      assert rows[..0] == [];
    } else if |rows| > 1 {
      JoinedLength(rows[..|rows| - 1]);
    }
  }

  /** Each row followed by a `None`: what the loop builds before its final `pop`. */
  function Terminated(rows: seq<seq<real>>): seq<Option<real>>
    decreases |rows|
  {
    if |rows| == 0 then [] else Terminated(rows[..|rows| - 1]) + Somes(rows[|rows| - 1]) + [None]
  }

  lemma {:induction false} TerminatedThenPop(rows: seq<seq<real>>)
    requires |rows| > 0
    ensures Terminated(rows) == Joined(rows) + [None]
    decreases |rows|
  {
    if |rows| > 1 {
      TerminatedThenPop(rows[..|rows| - 1]);
    } else {
      assert rows[..0] == [];
    }
  }

  /**
   * The flatten loop of one discrete series: `extend` each polygon's x row (and y row),
   * `append(None)`, then `pop` the trailing `None` if the list is not empty.
   */
  method FlattenPolygons(polygonPoints: seq<Mat>) returns (xs: seq<Option<real>>, ys: seq<Option<real>>)
    requires forall q | 0 <= q < |polygonPoints| :: 2 <= |polygonPoints[q]|
    ensures xs == Joined(RowOf(polygonPoints, 0)) && ys == Joined(RowOf(polygonPoints, 1))
  {
    xs, ys := [], [];
    for q := 0 to |polygonPoints|
      invariant xs == Terminated(RowOf(polygonPoints[..q], 0))
      invariant ys == Terminated(RowOf(polygonPoints[..q], 1))
    {
      var polygon := polygonPoints[q];
      assert RowOf(polygonPoints[..q + 1], 0)[..q] == RowOf(polygonPoints[..q], 0);
      assert RowOf(polygonPoints[..q + 1], 1)[..q] == RowOf(polygonPoints[..q], 1);
      xs := xs + Somes(polygon[0]);
      xs := xs + [None];
      ys := ys + Somes(polygon[1]);
      ys := ys + [None];
    }
    assert polygonPoints[..|polygonPoints|] == polygonPoints;
    if |xs| > 0 {
      TerminatedThenPop(RowOf(polygonPoints, 0));
      xs := xs[..|xs| - 1];
    }
    if |ys| > 0 {
      TerminatedThenPop(RowOf(polygonPoints, 1));
      ys := ys[..|ys| - 1];
    }
  }

  /**
   * The discrete branch of the plot: for each `i` below `numTransformations`, the x and y
   * lists of series `i`, built from the polygons at `range(i, len, numTransformations)`.
   */
  method DiscreteSeries(newPoints: seq<Mat>, numTransformations: int)
    returns (series: seq<(seq<Option<real>>, seq<Option<real>>)>)
    requires forall q | 0 <= q < |newPoints| :: 2 <= |newPoints[q]|
    ensures |series| == if numTransformations < 0 then 0 else numTransformations
    ensures forall i | 0 <= i < |series| ::
              series[i] == (Joined(RowOf(Group(newPoints, i, |series|), 0)), Joined(RowOf(Group(newPoints, i, |series|), 1)))
  {
    series := [];
    var count := if numTransformations < 0 then 0 else numTransformations;
    for i := 0 to count
      invariant |series| == i
      invariant forall s | 0 <= s < i ::
                  series[s] == (Joined(RowOf(Group(newPoints, s, numTransformations), 0)),
                                Joined(RowOf(Group(newPoints, s, numTransformations), 1)))
    {
      var polygonPoints := SelectGroup(newPoints, i, numTransformations);
      var xs, ys := FlattenPolygons(polygonPoints);
      series := series + [(xs, ys)];
    }
  }

  // ---- continuous series ----

  /** Coordinate `c` of each point. */
  function Coordinates(points: seq<Vec>, c: nat): seq<real>
    requires forall t | 0 <= t < |points| :: c < |points[t]|
  {
    seq(|points|, t requires 0 <= t < |points| => points[t][c])
  }

  /** The x and y lists of a scatter series over `points`. */
  function XY(points: seq<Vec>): (seq<real>, seq<real>)
    requires forall t | 0 <= t < |points| :: 2 <= |points[t]|
  {
    (Coordinates(points, 0), Coordinates(points, 1))
  }

  /** The x and y lists of one continuous series, read off its points (`scatter[0, 0]`, `scatter[1, 0]`). */
  method ScatterCoordinates(scatterPoints: seq<Vec>) returns (xs: seq<real>, ys: seq<real>)
    requires forall t | 0 <= t < |scatterPoints| :: 2 <= |scatterPoints[t]|
    ensures (xs, ys) == XY(scatterPoints)
  {
    xs, ys := [], [];
    for t := 0 to |scatterPoints|
      invariant xs == Coordinates(scatterPoints[..t], 0) && ys == Coordinates(scatterPoints[..t], 1)
    {
      xs := xs + [scatterPoints[t][0]];
      ys := ys + [scatterPoints[t][1]];
    }
    assert scatterPoints[..|scatterPoints|] == scatterPoints;
  }

  lemma PickAppend<T>(s: seq<T>, a: seq<int>, b: seq<int>)
    requires forall t | 0 <= t < |a| :: 0 <= a[t] < |s|
    requires forall t | 0 <= t < |b| :: 0 <= b[t] < |s|
    ensures Pick(s, a + b) == Pick(s, a) + Pick(s, b)
  {
  }

  /** The indices appended to `scatter_points` by the end of step `i`: groups `0..i`, in order. */
  function Accumulated(len: int, i: nat, k: nat): (r: seq<int>)
    requires k > 0
    ensures forall t | 0 <= t < |r| :: 0 <= r[t] < len
  {
    if i == 0 then RangeStep(0, len, k) else Accumulated(len, i - 1, k) + RangeStep(i, len, k)
  }

  /** The contents of `scatter_points` after step `i`. */
  function Gathered<T>(s: seq<T>, i: nat, k: nat): seq<T>
    requires k > 0
  {
    Pick(s, Accumulated(|s|, i, k))
  }

  lemma GatheredStep<T>(s: seq<T>, i: nat, k: nat)
    requires k > 0
    ensures Gathered(s, i, k) == (if i == 0 then [] else Gathered(s, i - 1, k)) + Group(s, i, k)
  {
    if i > 0 {
      PickAppend(s, Accumulated(|s|, i - 1, k), RangeStep(i, |s|, k));
    }
  }

  /** Because `scatter_points` is never reset, series `i` holds every point whose index has `j % k <= i`. */
  lemma {:induction false} AccumulatedMember(len: int, i: nat, k: nat, j: int)
    requires i < k && 0 <= j
    ensures j in Accumulated(len, i, k) <==> j < len && j % k <= i
  {
    GroupMember(len, k, i, j);
    if i > 0 {
      AccumulatedMember(len, i - 1, k, j);
    }
  }

  /**
   * The continuous branch of the plot as written: `scatter_points` accumulates across
   * the series, and series `i` plots the x and y of every point gathered so far.
   */
  method ContinuousSeries(newPoints: seq<Vec>, numTransformations: int) returns (series: seq<(seq<real>, seq<real>)>)
    requires forall t | 0 <= t < |newPoints| :: 2 <= |newPoints[t]|
    ensures |series| == if numTransformations < 0 then 0 else numTransformations
    ensures forall i | 0 <= i < |series| ::
              series[i] == XY(Gathered(newPoints, i, |series|))
  {
    series := [];
    var scatterPoints: seq<Vec> := [];
    var count := if numTransformations < 0 then 0 else numTransformations;
    for i := 0 to count
      invariant |series| == i
      invariant scatterPoints == if i == 0 then [] else Gathered(newPoints, i - 1, numTransformations)
      invariant forall s | 0 <= s < i :: series[s] == XY(Gathered(newPoints, s, numTransformations))
    {
      var group := SelectGroup(newPoints, i, numTransformations);
      GatheredStep(newPoints, i, numTransformations);
      scatterPoints := scatterPoints + group;
      assert scatterPoints == Gathered(newPoints, i, numTransformations);
      var xs, ys := ScatterCoordinates(scatterPoints);
      series := series + [(xs, ys)];
      assert series[i] == XY(Gathered(newPoints, i, numTransformations));
    }
    assert |series| == count;
  }

  /**
   * With two points and stride 2, series 1 as written plots both points, though only
   * index 1 lies in stride group 1.
   */
  lemma AccumulationCounterexample(p0: Vec, p1: Vec)
    requires p0 != p1
    ensures Gathered([p0, p1], 1, 2) == [p0, p1]
    ensures Group([p0, p1], 1, 2) == [p1]
    ensures Gathered([p0, p1], 1, 2) != Group([p0, p1], 1, 2)
  {
    assert RangeStep(0, 2, 2) == [0];
    assert RangeStep(1, 2, 2) == [1];
  }

  /**
   * The continuous branch with `scatter_points` reset for each series: series `i` plots
   * only the points at `range(i, len, k)`, so each point is in exactly one series.
   */
  method ContinuousSeriesPerGroup(newPoints: seq<Vec>, numTransformations: int) returns (series: seq<(seq<real>, seq<real>)>)
    requires forall t | 0 <= t < |newPoints| :: 2 <= |newPoints[t]|
    ensures |series| == if numTransformations < 0 then 0 else numTransformations
    ensures forall i | 0 <= i < |series| ::
              series[i] == XY(Group(newPoints, i, |series|))
  {
    series := [];
    var count := if numTransformations < 0 then 0 else numTransformations;
    for i := 0 to count
      invariant |series| == i
      invariant forall s | 0 <= s < i ::
                  series[s] == XY(Group(newPoints, s, numTransformations))
    {
      var scatterPoints := SelectGroup(newPoints, i, numTransformations);
      var xs, ys := ScatterCoordinates(scatterPoints);
      series := series + [(xs, ys)];
    }
  }
}
