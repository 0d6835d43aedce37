/** The plot planning of the training-results visualiser: the x values of
    the loss series, the axis limits (user-given or taken from the data),
    optional outlier filtering, the single-figure bound merge and the
    `[::k]` subsampling of the plotted curves. Loss values are reals; the
    drawing itself is left out, and the plan says which curves go into
    which panel with which axis limits. */
module ResultsViz {
  import opened Wrappers
  import opened Seqs
  import VisUtil

  datatype PlotError =
    | ZeroStep                        // `np.arange` with step 0
    | Filter(cause: VisUtil.FilterError)
    | EmptySeries                     // `min`/`max` of an empty array
    | ZeroSliceStep                   // `a[::0]`
    | ShapeMismatch                   // `plt.plot` of x and y of different lengths

  /** `np.arange(start, stop, step)` on integers: start, start + step, ...
      while short of `stop`. */
  function Arange(start: int, stop: int, step: int): (r: Result<seq<int>, PlotError>)
    ensures r.Err? <==> step == 0
    ensures r.Ok? ==> forall i :: 0 <= i < |r.value| ==> r.value[i] == start + i * step
  {
    if step == 0 then Err(ZeroStep)
    else
      var n := if step > 0 then CeilDiv(stop - start, step) else CeilDiv(start - stop, -step);
      Ok(seq(Max(0, n), i => start + i * step))
  }

  /** For a positive step the progression holds exactly the values
      start + i * step that lie in [start, stop): each one is below `stop`,
      and the next one would not be. */
  lemma ArangeInRange(start: int, stop: int, step: int)
    requires step > 0
    ensures var r := Arange(start, stop, step).value;
      (forall i :: 0 <= i < |r| ==> r[i] < stop) &&
      start + |r| * step >= stop
  {
    var r := Arange(start, stop, step).value;
    var n := CeilDiv(stop - start, step);
    CeilDivBounds(stop - start, step);
    forall i | 0 <= i < |r|
      ensures r[i] < stop
    {
      MulMonotone(step, i, n - 1);
      assert step * (n - 1) == (n - 1) * step;
    }
    if n < 0 {
      MulMonotone(step, n, -1);
    }
    assert |r| * step == step * |r|;
  }

  /** `get_x(num_steps, step)`. */
  function GetX(numSteps: nat, step: int): Result<seq<int>, PlotError>
  {
    Arange(step, step * numSteps + 1, step)
  }

  /** For step >= 1, `get_x(n, step)` is step, 2 * step, ..., n * step. */
  lemma GetXProgression(n: nat, step: int)
    requires step >= 1
    ensures GetX(n, step) == Ok(seq(n, i => (i + 1) * step))
  {
    assert (n - 1) * step == n * step - step;
    CeilDivUnique(step * n + 1 - step, step, n);
    var r := GetX(n, step).value;
    assert |r| == n;
    forall i | 0 <= i < n
      ensures r[i] == (i + 1) * step
    {
      assert (i + 1) * step == step + i * step;
    }
    assert r == seq(n, i => (i + 1) * step);
  }

  /** A zero checkpoint interval makes `get_x` raise. */
  lemma GetXZeroStep(n: nat)
    ensures GetX(n, 0) == Err(ZeroStep)
  {
  }

  /** For a negative step, `get_x(n, step)` has fewer than n values (none
      when n is 0 or 1), so it never pairs up with a series of n losses
      unless both are empty. */
  lemma GetXNegativeStep(n: nat, step: int)
    requires step < 0
    ensures |GetX(n, step).value| < n || n == 0
  {
    var d := -step;
    var a := step - (step * n + 1);
    assert a == d * n - d - 1;
    CeilDivBounds(a, d);
  }

  /** `get_minmax(*args)`: each value, or its default when the value is
      `None`; the same number of results as of pairs, in order. */
  method GetMinmax<T>(args: seq<(Option<T>, T)>) returns (r: seq<T>)
    ensures r == Minmax(args)
    ensures |r| == |args|
    ensures forall i :: 0 <= i < |args| ==>
      (args[i].0.None? ==> r[i] == args[i].1) && (args[i].0.Some? ==> r[i] == args[i].0.value)
  {
    r := [];
    for i := 0 to |args|
      invariant r == Minmax(args[..i])
    {
      assert args[..i + 1] == args[..i] + [args[i]];
      MinmaxAppend(args[..i], args[i]);
      r := r + [if args[i].0.None? then args[i].1 else args[i].0.value];
    }
    assert args[..|args|] == args;
    MinmaxProperties(args);
  }

  /** The list that `get_minmax` builds, one element per pair. */
  function Minmax<T>(args: seq<(Option<T>, T)>): seq<T>
  {
    if |args| == 0 then []
    else Minmax(args[..|args| - 1]) + [OrDefault(args[|args| - 1])]
  }

  function OrDefault<T>(p: (Option<T>, T)): T
  {
    match p.0
    case None => p.1
    case Some(v) => v
  }

  lemma MinmaxAppend<T>(args: seq<(Option<T>, T)>, p: (Option<T>, T))
    ensures Minmax(args + [p]) == Minmax(args) + [OrDefault(p)]
  {
    assert (args + [p])[..|args|] == args;
  }

  /** `Minmax` keeps order and count and takes the default exactly at the
      `None` values. */
  lemma {:induction false} MinmaxProperties<T>(args: seq<(Option<T>, T)>)
    ensures |Minmax(args)| == |args|
    ensures forall i :: 0 <= i < |args| ==>
      (args[i].0.None? ==> Minmax(args)[i] == args[i].1) && (args[i].0.Some? ==> Minmax(args)[i] == args[i].0.value)
  {
    if |args| > 0 {
      var init := args[..|args| - 1];
      MinmaxProperties(init);
      forall i | 0 <= i < |args| - 1
        ensures args[i] == init[i]
      {
      }
    }
  }

  function RMin(a: real, b: real): real { if a <= b then a else b }

  function RMax(a: real, b: real): real { if a >= b then a else b }

  /** `min(s)` of a non-empty series: an element below or equal to all. */
  function SeriesMin(s: seq<real>): (r: real)
    requires |s| > 0
    ensures r in s && forall x :: x in s ==> r <= x
  {
    if |s| == 1 then s[0]
    else
      assert forall x :: x in s ==> x == s[0] || x in s[1..];
      RMin(s[0], SeriesMin(s[1..]))
  }

  /** `max(s)` of a non-empty series: an element above or equal to all. */
  function SeriesMax(s: seq<real>): (r: real)
    requires |s| > 0
    ensures r in s && forall x :: x in s ==> x <= r
  {
    if |s| == 1 then s[0]
    else
      assert forall x :: x in s ==> x == s[0] || x in s[1..];
      RMax(s[0], SeriesMax(s[1..]))
  }

  /** Axis limits of one panel. */
  datatype Bounds = Bounds(xmin: real, xmax: real, ymin: real, ymax: real)

  /** A point inside the limits. */
  predicate Inside(b: Bounds, x: real, y: real)
  {
    b.xmin <= x <= b.xmax && b.ymin <= y <= b.ymax
  }

  /** The single-figure limits: the smallest limits containing both. */
  function MergeBounds(a: Bounds, b: Bounds): (r: Bounds)
    ensures forall x, y :: Inside(a, x, y) || Inside(b, x, y) ==> Inside(r, x, y)
    ensures r.xmin in {a.xmin, b.xmin} && r.xmax in {a.xmax, b.xmax}
    ensures r.ymin in {a.ymin, b.ymin} && r.ymax in {a.ymax, b.ymax}
  {
    Bounds(RMin(a.xmin, b.xmin), RMax(a.xmax, b.xmax), RMin(a.ymin, b.ymin), RMax(a.ymax, b.ymax))
  }

  /** The reversed sequence. */
  function Reverse<T>(s: seq<T>): (r: seq<T>)
    ensures |r| == |s| && forall i :: 0 <= i < |s| ==> r[i] == s[|s| - 1 - i]
  {
    seq(|s|, i requires 0 <= i < |s| => s[|s| - 1 - i])
  }

  /** `s[::k]`: an error for k = 0, every k-th element from the front for
      k > 0 and from the back for k < 0. */
  function SliceStep<T>(s: seq<T>, k: int): Result<seq<T>, PlotError>
  {
    if k == 0 then Err(ZeroSliceStep)
    else if k > 0 then Ok(Stride(s, k))
    else Ok(Stride(Reverse(s), -k))
  }

  /** `s[::k]` has ceil(|s| / |k|) elements, the i-th taken from index
      i * k (counted from the back when k < 0). */
  lemma SliceStepAt<T>(s: seq<T>, k: int)
    requires k != 0
    ensures var r := SliceStep(s, k).value;
      |r| == CeilDiv(|s|, if k > 0 then k else -k) &&
      forall i :: 0 <= i < |r| ==>
        if k > 0 then i * k < |s| && r[i] == s[i * k]
        else i * -k < |s| && r[i] == s[|s| - 1 - i * -k]
  {
    var m := if k > 0 then k else -k;
    var t := if k > 0 then s else Reverse(s);
    StrideLength(t, m);
    forall i | 0 <= i < |Stride(t, m)|
      ensures i * m < |s| && Stride(t, m)[i] == t[i * m]
    {
      StrideAt(t, m, i);
    }
  }

  /** (x, y) is a point (X[j], Y[j]) of the series X, Y. */
  ghost predicate IsPoint(x: real, y: real, X: seq<real>, Y: seq<real>)
  {
    exists j :: 0 <= j < |X| && j < |Y| && x == X[j] && y == Y[j]
  }

  /** Every point (xs[k], ys[k]) is a point of the series X, Y, with one x
      per y. */
  ghost predicate PointsOf(xs: seq<real>, ys: seq<real>, X: seq<real>, Y: seq<real>)
  {
    |xs| == |ys| && forall k :: 0 <= k < |xs| ==> IsPoint(xs[k], ys[k], X, Y)
  }

  lemma PointsOfSelf(X: seq<real>, Y: seq<real>)
    requires |X| == |Y|
    ensures PointsOf(X, Y, X, Y)
  {
    forall k | 0 <= k < |X|
      ensures IsPoint(X[k], Y[k], X, Y)
    {
      assert 0 <= k < |X| && k < |Y| && X[k] == X[k] && Y[k] == Y[k];
    }
  }

  lemma PointsOfTransitive(a: seq<real>, b: seq<real>, c: seq<real>, d: seq<real>, e: seq<real>, f: seq<real>)
    requires PointsOf(a, b, c, d) && PointsOf(c, d, e, f)
    ensures PointsOf(a, b, e, f)
  {
    forall k | 0 <= k < |a|
      ensures IsPoint(a[k], b[k], e, f)
    {
      assert IsPoint(a[k], b[k], c, d);
      var j :| 0 <= j < |c| && j < |d| && a[k] == c[j] && b[k] == d[j];
      assert IsPoint(c[j], d[j], e, f);
    }
  }

  /** One shared mask keeps x and y paired. */
  lemma PointsOfKeep(X: seq<real>, Y: seq<real>, mask: seq<bool>)
    requires |X| == |Y| == |mask|
    ensures PointsOf(VisUtil.Keep(X, mask), VisUtil.Keep(Y, mask), X, Y)
  {
    VisUtil.KeepProperties(X, mask);
    VisUtil.KeepProperties(Y, mask);
    var kept := VisUtil.KeptIndices(mask);
    forall k | 0 <= k < |VisUtil.Keep(X, mask)|
      ensures IsPoint(VisUtil.Keep(X, mask)[k], VisUtil.Keep(Y, mask)[k], X, Y)
    {
      var j := kept[k];
      assert 0 <= j < |X| && j < |Y| && VisUtil.Keep(X, mask)[k] == X[j] && VisUtil.Keep(Y, mask)[k] == Y[j];
    }
  }

  /** The same stride applied to x and y keeps them paired. */
  lemma PointsOfSlice(X: seq<real>, Y: seq<real>, k: int)
    requires |X| == |Y| && k != 0
    ensures PointsOf(SliceStep(X, k).value, SliceStep(Y, k).value, X, Y)
  {
    if k > 0 {
      PointsOfStride(X, Y, X, Y, k);
    } else {
      PointsOfStride(Reverse(X), Reverse(Y), X, Y, -k);
    }
  }

  /** Striding a series whose points come from X, Y at the same index keeps
      every point one of X, Y. */
  lemma PointsOfStride(A: seq<real>, B: seq<real>, X: seq<real>, Y: seq<real>, m: nat)
    requires |A| == |B| && m >= 1
    requires forall j :: 0 <= j < |A| ==> IsPoint(A[j], B[j], X, Y)
    ensures PointsOf(Stride(A, m), Stride(B, m), X, Y)
  {
    StrideLength(A, m);
    StrideLength(B, m);
    forall i | 0 <= i < |Stride(A, m)|
      ensures IsPoint(Stride(A, m)[i], Stride(B, m)[i], X, Y)
    {
      StrideAt(A, m, i);
      StrideAt(B, m, i);
    }
  }

  /** One loss series with its x values. */
  datatype Series = Series(xs: seq<real>, ys: seq<real>)

  /** Axis limits given on the command line; `None` when not given. */
  datatype AxisLimits = AxisLimits(xmin: Option<real>, xmax: Option<real>, ymin: Option<real>, ymax: Option<real>)

  const NoLimits := AxisLimits(None, None, None, None)

  datatype Options = Options(
    ignoreOutliers: bool,
    single: bool,
    trainStep: int,
    valStep: int,
    train: AxisLimits,
    val: AxisLimits)

  /** One `plt.plot` curve and one panel (`plt.subplot`) of the figure. */
  datatype Line = Line(xs: seq<real>, ys: seq<real>)

  datatype Panel = Panel(bounds: Bounds, lines: seq<Line>)

  function Reals(s: seq<int>): (r: seq<real>)
    ensures |r| == |s| && forall i :: 0 <= i < |s| ==> r[i] == s[i] as real
  {
    seq(|s|, i requires 0 <= i < |s| => s[i] as real)
  }

  /** The x values k * step, k = 1..n, that a well-formed series pairs with
      its n losses. */
  function Steps(n: nat, step: int): seq<real>
  {
    seq(n, i => ((i + 1) * step) as real)
  }

  /** The losses with their x values from `get_x`. */
  function LoadSeries(losses: seq<real>, step: int): (r: Result<Series, PlotError>)
    ensures r.Ok? ==> r.value.ys == losses
  {
    match GetX(|losses|, step)
    case Err(e) => Err(e)
    case Ok(x) => Ok(Series(Reals(x), losses))
  }

  /** With step >= 1 a loaded series pairs the k-th loss with k * step. */
  lemma LoadSeriesSteps(losses: seq<real>, step: int)
    requires step >= 1
    ensures LoadSeries(losses, step) == Ok(Series(Steps(|losses|, step), losses))
  {
    GetXProgression(|losses|, step);
    var x := GetX(|losses|, step).value;
    assert Reals(x) == Steps(|losses|, step);
  }

  /** `filter_outliers(x, y, mode="last")`: the outlier mask of the losses
      applied to both arrays. */
  function FilterSeries(s: Series, isOutlier: seq<real> -> seq<bool>): Result<Series, PlotError>
    requires forall p: seq<real> :: |isOutlier(p)| == |p|
  {
    match VisUtil.FilterOutliers([s.xs, s.ys], isOutlier, "last")
    case Err(e) => Err(Filter(e))
    case Ok(r) => Ok(Series(r[0], r[1]))
  }

  /** Filtering equal-length x and y keeps them paired; x values of another
      length than the losses make the boolean index fail. */
  lemma FilterSeriesPaired(s: Series, isOutlier: seq<real> -> seq<bool>)
    requires forall p: seq<real> :: |isOutlier(p)| == |p|
    ensures |s.xs| == |s.ys| ==> (FilterSeries(s, isOutlier).Ok? &&
      PointsOf(FilterSeries(s, isOutlier).value.xs, FilterSeries(s, isOutlier).value.ys, s.xs, s.ys) &&
      |FilterSeries(s, isOutlier).value.ys| <= |s.ys|)
    ensures |s.xs| != |s.ys| ==> FilterSeries(s, isOutlier) == Err(Filter(VisUtil.MaskLengthMismatch))
  {
    var points := [s.xs, s.ys];
    assert VisUtil.MasksFit(points, isOutlier);
    if |s.xs| == |s.ys| {
      VisUtil.FilterLastMask(points, isOutlier);
      var mask := isOutlier(s.ys);
      PointsOfKeep(s.xs, s.ys, mask);
      VisUtil.KeepProperties(s.ys, mask);
    } else {
      VisUtil.FilterSharedMaskMismatch(points, isOutlier, 1);
    }
  }

  /** The limits of one panel: each given limit, or else the minimum or
      maximum of the data. */
  function AxisBounds(s: Series, user: AxisLimits): Result<Bounds, PlotError>
  {
    if |s.xs| == 0 || |s.ys| == 0 then Err(EmptySeries)
    else
      var args := [(user.xmin, SeriesMin(s.xs)), (user.xmax, SeriesMax(s.xs)),
                   (user.ymin, SeriesMin(s.ys)), (user.ymax, SeriesMax(s.ys))];
      MinmaxProperties(args);
      var m := Minmax(args);
      Ok(Bounds(m[0], m[1], m[2], m[3]))
  }

  /** With no limits given, the limits are those of the data, so they
      contain every point of the series. */
  lemma AxisBoundsOfData(s: Series)
    requires |s.xs| > 0 && |s.ys| > 0
    ensures AxisBounds(s, NoLimits) == Ok(Bounds(SeriesMin(s.xs), SeriesMax(s.xs), SeriesMin(s.ys), SeriesMax(s.ys)))
    ensures forall x, y :: IsPoint(x, y, s.xs, s.ys) ==> Inside(AxisBounds(s, NoLimits).value, x, y)
  {
    MinmaxProperties([(None, SeriesMin(s.xs)), (None, SeriesMax(s.xs)), (None, SeriesMin(s.ys)), (None, SeriesMax(s.ys))]);
    forall x, y | IsPoint(x, y, s.xs, s.ys)
      ensures x in s.xs && y in s.ys
    {
      var j :| 0 <= j < |s.xs| && j < |s.ys| && x == s.xs[j] && y == s.ys[j];
    }
  }

  /** The subsampled curve `plot(x[::k], y[::k])`. */
  function Curve(s: Series, step: int): Result<Line, PlotError>
  {
    match SliceStep(s.xs, step)
    case Err(e) => Err(e)
    case Ok(xs) =>
      match SliceStep(s.ys, step)
      case Err(e) => Err(e)
      case Ok(ys) => if |xs| != |ys| then Err(ShapeMismatch) else Ok(Line(xs, ys))
  }

  /** A curve of a paired series plots points of the series, once every
      `|step|` points; a zero step is an error. */
  lemma CurvePoints(s: Series, step: int)
    ensures step == 0 ==> Curve(s, step) == Err(ZeroSliceStep)
    ensures step != 0 && |s.xs| == |s.ys| ==> (Curve(s, step).Ok? &&
      |Curve(s, step).value.xs| == CeilDiv(|s.xs|, if step > 0 then step else -step) &&
      PointsOf(Curve(s, step).value.xs, Curve(s, step).value.ys, s.xs, s.ys))
  {
    if step != 0 && |s.xs| == |s.ys| {
      SliceStepAt(s.xs, step);
      SliceStepAt(s.ys, step);
      PointsOfSlice(s.xs, s.ys, step);
    }
  }

  /** Every point of a curve has its x among the series' x values and its
      y among its losses. */
  lemma CurveWithin(s: Series, step: int)
    requires Curve(s, step).Ok?
    ensures var l := Curve(s, step).value;
      |l.xs| == |l.ys| && forall k :: 0 <= k < |l.xs| ==> l.xs[k] in s.xs && l.ys[k] in s.ys
  {
    SliceStepAt(s.xs, step);
    SliceStepAt(s.ys, step);
  }

  /** What the data part of the script computes before plotting: both
      series, filtered when asked, and their axis limits. */
  datatype Prepared = Prepared(train: Series, val: Series, trainBounds: Bounds, valBounds: Bounds)

  /** Reading the x values, filtering outliers and fixing the limits, in
      the order in which the script does it. */
  function Prepare(trainLoss: seq<real>, valLoss: seq<real>, checkpointEvery: int, ignoreOutliers: bool,
                   trainLimits: AxisLimits, valLimits: AxisLimits,
                   isOutlier: seq<real> -> seq<bool>): Result<Prepared, PlotError>
    requires forall p: seq<real> :: |isOutlier(p)| == |p|
  {
    match LoadSeries(trainLoss, 1)
    case Err(e) => Err(e)
    case Ok(train0) =>
      match LoadSeries(valLoss, checkpointEvery)
      case Err(e) => Err(e)
      case Ok(val0) =>
        match (if ignoreOutliers then FilterSeries(train0, isOutlier) else Ok(train0))
        case Err(e) => Err(e)
        case Ok(train) =>
          match (if ignoreOutliers then FilterSeries(val0, isOutlier) else Ok(val0))
          case Err(e) => Err(e)
          case Ok(val) =>
            match AxisBounds(train, trainLimits)
            case Err(e) => Err(e)
            case Ok(tb) =>
              match AxisBounds(val, valLimits)
              case Err(e) => Err(e)
              case Ok(vb) => Ok(Prepared(train, val, tb, vb))
  }

  /** The panels: one with both curves and the merged limits in single
      mode, else one panel per curve with its own limits. Each curve is
      the series subsampled by its step. */
  function Layout(p: Prepared, opts: Options): Result<seq<Panel>, PlotError>
  {
    match Curve(p.train, opts.trainStep)
    case Err(e) => Err(e)
    case Ok(tl) =>
      match Curve(p.val, opts.valStep)
      case Err(e) => Err(e)
      case Ok(vl) =>
        if opts.single then Ok([Panel(MergeBounds(p.trainBounds, p.valBounds), [tl, vl])])
        else Ok([Panel(p.trainBounds, [tl]), Panel(p.valBounds, [vl])])
  }

  /** `main(args)` on the losses and checkpoint interval read from the
      results file, up to the figure it would draw. */
  function PlotResults(trainLoss: seq<real>, valLoss: seq<real>, checkpointEvery: int, opts: Options,
                       isOutlier: seq<real> -> seq<bool>): Result<seq<Panel>, PlotError>
    requires forall p: seq<real> :: |isOutlier(p)| == |p|
  {
    match Prepare(trainLoss, valLoss, checkpointEvery, opts.ignoreOutliers, opts.train, opts.val, isOutlier)
    case Err(e) => Err(e)
    case Ok(p) => Layout(p, opts)
  }

  /** The curves of a figure, panel by panel. */
  function Curves(panels: seq<Panel>): seq<Line>
  {
    if |panels| == 0 then [] else panels[0].lines + Curves(panels[1..])
  }

  /** A checkpoint interval of 0 makes the script raise. */
  lemma PlotZeroCheckpoint(trainLoss: seq<real>, valLoss: seq<real>, opts: Options, isOutlier: seq<real> -> seq<bool>)
    requires forall p: seq<real> :: |isOutlier(p)| == |p|
    ensures PlotResults(trainLoss, valLoss, 0, opts, isOutlier) == Err(ZeroStep)
  {
    GetXZeroStep(|valLoss|);
  }

  /** With a positive checkpoint interval both prepared series are paired
      points of the input: (k, k-th training loss) and
      (k * checkpointEvery, k-th validation loss), a subset of them when
      filtering. */
  lemma PreparePaired(trainLoss: seq<real>, valLoss: seq<real>, checkpointEvery: int, ignoreOutliers: bool,
                      trainLimits: AxisLimits, valLimits: AxisLimits, isOutlier: seq<real> -> seq<bool>)
    requires forall p: seq<real> :: |isOutlier(p)| == |p|
    requires checkpointEvery >= 1
    ensures var r := Prepare(trainLoss, valLoss, checkpointEvery, ignoreOutliers, trainLimits, valLimits, isOutlier);
      r.Ok? ==>
        PointsOf(r.value.train.xs, r.value.train.ys, Steps(|trainLoss|, 1), trainLoss) &&
        PointsOf(r.value.val.xs, r.value.val.ys, Steps(|valLoss|, checkpointEvery), valLoss)
  {
    LoadSeriesSteps(trainLoss, 1);
    LoadSeriesSteps(valLoss, checkpointEvery);
    var t0 := Series(Steps(|trainLoss|, 1), trainLoss);
    var v0 := Series(Steps(|valLoss|, checkpointEvery), valLoss);
    PointsOfSelf(t0.xs, t0.ys);
    PointsOfSelf(v0.xs, v0.ys);
    FilterSeriesPaired(t0, isOutlier);
    FilterSeriesPaired(v0, isOutlier);
  }

  /** The prepared limits are those of the prepared series, which are not
      empty. */
  lemma PrepareBounds(trainLoss: seq<real>, valLoss: seq<real>, checkpointEvery: int, ignoreOutliers: bool,
                      trainLimits: AxisLimits, valLimits: AxisLimits, isOutlier: seq<real> -> seq<bool>)
    requires forall p: seq<real> :: |isOutlier(p)| == |p|
    ensures var r := Prepare(trainLoss, valLoss, checkpointEvery, ignoreOutliers, trainLimits, valLimits, isOutlier);
      r.Ok? ==>
        AxisBounds(r.value.train, trainLimits) == Ok(r.value.trainBounds) &&
        AxisBounds(r.value.val, valLimits) == Ok(r.value.valBounds) &&
        |r.value.train.xs| > 0 && |r.value.train.ys| > 0 &&
        |r.value.val.xs| > 0 && |r.value.val.ys| > 0
  {
  }

  /** The figure's shape: in single mode one panel holding both curves
      under the merged limits, else a training panel and a validation
      panel; either way the curves are the training curve, then the
      validation one. */
  lemma LayoutShape(p: Prepared, opts: Options)
    ensures Layout(p, opts).Ok? <==> Curve(p.train, opts.trainStep).Ok? && Curve(p.val, opts.valStep).Ok?
    ensures Layout(p, opts).Ok? ==>
      var panels := Layout(p, opts).value;
      var tl := Curve(p.train, opts.trainStep).value;
      var vl := Curve(p.val, opts.valStep).value;
      Curves(panels) == [tl, vl] &&
      (opts.single ==> panels == [Panel(MergeBounds(p.trainBounds, p.valBounds), [tl, vl])]) &&
      (!opts.single ==> panels == [Panel(p.trainBounds, [tl]), Panel(p.valBounds, [vl])])
  {
    if Layout(p, opts).Ok? {
      var panels := Layout(p, opts).value;
      if opts.single {
        assert Curves(panels[1..]) == [];
      } else {
        assert Curves(panels[1..][1..]) == [];
      }
    }
  }

  /** With a positive checkpoint interval the figure plots the training
      curve, then the validation curve, and every plotted point is a pair
      of the input: (k, k-th training loss) or (k * checkpointEvery, k-th
      validation loss). */
  lemma PlotCurvesFromData(trainLoss: seq<real>, valLoss: seq<real>, checkpointEvery: int, opts: Options,
                           isOutlier: seq<real> -> seq<bool>)
    requires forall p: seq<real> :: |isOutlier(p)| == |p|
    requires checkpointEvery >= 1
    ensures var r := PlotResults(trainLoss, valLoss, checkpointEvery, opts, isOutlier);
      r.Ok? ==>
        (if opts.single then |r.value| == 1 else |r.value| == 2) &&
        var ls := Curves(r.value);
        |ls| == 2 &&
        PointsOf(ls[0].xs, ls[0].ys, Steps(|trainLoss|, 1), trainLoss) &&
        PointsOf(ls[1].xs, ls[1].ys, Steps(|valLoss|, checkpointEvery), valLoss)
  {
    var r := PlotResults(trainLoss, valLoss, checkpointEvery, opts, isOutlier);
    if r.Ok? {
      var p := Prepare(trainLoss, valLoss, checkpointEvery, opts.ignoreOutliers, opts.train, opts.val, isOutlier).value;
      PreparePaired(trainLoss, valLoss, checkpointEvery, opts.ignoreOutliers, opts.train, opts.val, isOutlier);
      LayoutShape(p, opts);
      CurvePoints(p.train, opts.trainStep);
      CurvePoints(p.val, opts.valStep);
      var tl := Curve(p.train, opts.trainStep).value;
      var vl := Curve(p.val, opts.valStep).value;
      PointsOfTransitive(tl.xs, tl.ys, p.train.xs, p.train.ys, Steps(|trainLoss|, 1), trainLoss);
      PointsOfTransitive(vl.xs, vl.ys, p.val.xs, p.val.ys, Steps(|valLoss|, checkpointEvery), valLoss);
    }
  }

  /** Every point of every curve of the panel lies within its limits. */
  predicate CurvesInside(panel: Panel)
  {
    forall j, k :: 0 <= j < |panel.lines| && 0 <= k < |panel.lines[j].xs| ==>
      k < |panel.lines[j].ys| && Inside(panel.bounds, panel.lines[j].xs[k], panel.lines[j].ys[k])
  }

  /** Limits taken from the data contain every point of both curves. */
  lemma LayoutInside(p: Prepared, opts: Options)
    requires |p.train.xs| > 0 && |p.train.ys| > 0 && |p.val.xs| > 0 && |p.val.ys| > 0
    requires AxisBounds(p.train, NoLimits) == Ok(p.trainBounds)
    requires AxisBounds(p.val, NoLimits) == Ok(p.valBounds)
    ensures Layout(p, opts).Ok? ==> forall i :: 0 <= i < |Layout(p, opts).value| ==> CurvesInside(Layout(p, opts).value[i])
  {
    if Layout(p, opts).Ok? {
      LayoutShape(p, opts);
      CurveWithin(p.train, opts.trainStep);
      CurveWithin(p.val, opts.valStep);
      AxisBoundsOfData(p.train);
      AxisBoundsOfData(p.val);
      var tl := Curve(p.train, opts.trainStep).value;
      var vl := Curve(p.val, opts.valStep).value;
      assert forall k :: 0 <= k < |tl.xs| ==> Inside(p.trainBounds, tl.xs[k], tl.ys[k]);
      assert forall k :: 0 <= k < |vl.xs| ==> Inside(p.valBounds, vl.xs[k], vl.ys[k]);
    }
  }

  /** With no limits given on the command line, every plotted point lies
      within the limits of its panel, in single mode as in split mode. */
  lemma PlotDefaultLimitsContain(trainLoss: seq<real>, valLoss: seq<real>, checkpointEvery: int, opts: Options,
                                 isOutlier: seq<real> -> seq<bool>)
    requires forall p: seq<real> :: |isOutlier(p)| == |p|
    requires opts.train == NoLimits && opts.val == NoLimits
    ensures var r := PlotResults(trainLoss, valLoss, checkpointEvery, opts, isOutlier);
      r.Ok? ==> forall i :: 0 <= i < |r.value| ==> CurvesInside(r.value[i])
  {
    var pr := Prepare(trainLoss, valLoss, checkpointEvery, opts.ignoreOutliers, opts.train, opts.val, isOutlier);
    PrepareBounds(trainLoss, valLoss, checkpointEvery, opts.ignoreOutliers, opts.train, opts.val, isOutlier);
    if pr.Ok? {
      LayoutInside(pr.value, opts);
    }
  }

  /** Single mode draws the same curves as split mode, in one panel whose
      limits are the merge of the two panels' limits (the minimum of the
      minima and the maximum of the maxima); one succeeds exactly when the
      other does. */
  lemma PlotSingleMergesSplit(trainLoss: seq<real>, valLoss: seq<real>, checkpointEvery: int, opts: Options,
                              isOutlier: seq<real> -> seq<bool>)
    requires forall p: seq<real> :: |isOutlier(p)| == |p|
    ensures var one := PlotResults(trainLoss, valLoss, checkpointEvery, opts.(single := true), isOutlier);
      var two := PlotResults(trainLoss, valLoss, checkpointEvery, opts.(single := false), isOutlier);
      (one.Ok? <==> two.Ok?) &&
      (one.Ok? ==> (|two.value| == 2 &&
        one.value == [Panel(MergeBounds(two.value[0].bounds, two.value[1].bounds), two.value[0].lines + two.value[1].lines)]))
  {
    var pr := Prepare(trainLoss, valLoss, checkpointEvery, opts.ignoreOutliers, opts.train, opts.val, isOutlier);
    if pr.Ok? {
      LayoutSingleMergesSplit(pr.value, opts);
      assert PlotResults(trainLoss, valLoss, checkpointEvery, opts.(single := true), isOutlier) == Layout(pr.value, opts.(single := true));
      assert PlotResults(trainLoss, valLoss, checkpointEvery, opts.(single := false), isOutlier) == Layout(pr.value, opts.(single := false));
    }
  }

  lemma LayoutSingleMergesSplit(p: Prepared, opts: Options)
    ensures var one := Layout(p, opts.(single := true));
      var two := Layout(p, opts.(single := false));
      (one.Ok? <==> two.Ok?) &&
      (one.Ok? ==> (|two.value| == 2 &&
        one.value == [Panel(MergeBounds(two.value[0].bounds, two.value[1].bounds), two.value[0].lines + two.value[1].lines)]))
  {
    if Layout(p, opts.(single := true)).Ok? {
      var tl := Curve(p.train, opts.trainStep).value;
      var vl := Curve(p.val, opts.valStep).value;
      assert [tl] + [vl] == [tl, vl];
    }
  }

  /** Without outlier filtering and with a positive checkpoint interval,
      the script draws its figure exactly when both series are non-empty
      and both subsampling steps are non-zero. */
  lemma PlotSucceeds(trainLoss: seq<real>, valLoss: seq<real>, checkpointEvery: int, opts: Options,
                     isOutlier: seq<real> -> seq<bool>)
    requires forall p: seq<real> :: |isOutlier(p)| == |p|
    requires checkpointEvery >= 1 && !opts.ignoreOutliers
    ensures PlotResults(trainLoss, valLoss, checkpointEvery, opts, isOutlier).Ok? <==>
      |trainLoss| > 0 && |valLoss| > 0 && opts.trainStep != 0 && opts.valStep != 0
  {
    LoadSeriesSteps(trainLoss, 1);
    LoadSeriesSteps(valLoss, checkpointEvery);
    var t0 := Series(Steps(|trainLoss|, 1), trainLoss);
    var v0 := Series(Steps(|valLoss|, checkpointEvery), valLoss);
    CurvePoints(t0, opts.trainStep);
    CurvePoints(v0, opts.valStep);
    var pr := Prepare(trainLoss, valLoss, checkpointEvery, opts.ignoreOutliers, opts.train, opts.val, isOutlier);
    if pr.Ok? {
      assert pr.value.train == t0 && pr.value.val == v0;
      LayoutShape(pr.value, opts);
    }
  }

  /** An empty loss series makes `min` raise, whatever the options. */
  lemma PlotEmptySeries(trainLoss: seq<real>, valLoss: seq<real>, checkpointEvery: int, opts: Options,
                        isOutlier: seq<real> -> seq<bool>)
    requires forall p: seq<real> :: |isOutlier(p)| == |p|
    requires checkpointEvery >= 1 && (|trainLoss| == 0 || |valLoss| == 0)
    ensures PlotResults(trainLoss, valLoss, checkpointEvery, opts, isOutlier) == Err(EmptySeries)
  {
    LoadSeriesSteps(trainLoss, 1);
    LoadSeriesSteps(valLoss, checkpointEvery);
    var t0 := Series(Steps(|trainLoss|, 1), trainLoss);
    var v0 := Series(Steps(|valLoss|, checkpointEvery), valLoss);
    FilterSeriesPaired(t0, isOutlier);
    FilterSeriesPaired(v0, isOutlier);
  }
}
