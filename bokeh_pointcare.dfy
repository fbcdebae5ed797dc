/**
 * The bokeh `plot_pointcare` backend up to its drawing calls: the figure size,
 * the in-place clamp of the caller's RR array to [200, 3000] ms, the lag pairs
 * `(rr[n], rr[n+1])`, the pairs flagged as outliers and the axis range.
 */
module BokehPointcare {
  import opened Wrappers
  import opened ArrayOps

  const RR_MIN: real := 200.0
  const RR_MAX: real := 3000.0
  const DEFAULT_SIZE: int := 400
  const RANGE_MARGIN: real := 50.0

  /** The `figsize` argument: `None`, an `int`, or a list or tuple unpacked into width and height. */
  datatype FigSize = Default | Side(n: int) | Dims(items: seq<int>)

  datatype Size = Size(height: int, width: int)

  /** Unpacking a list or tuple that does not hold two items, and reducing an empty array. */
  datatype Error = UnpackMismatch | EmptyArray

  // ---------------------------------------------------------------------------
  // Figure size

  /** Height and width of the figure; a pair gives the width first. */
  function ParseFigSize(f: FigSize): (r: Result<Size, Error>)
    ensures r.Err? <==> f.Dims? && |f.items| != 2
    ensures r.Err? ==> r.error == UnpackMismatch
    ensures f.Default? ==> r == Ok(Size(DEFAULT_SIZE, DEFAULT_SIZE))
    ensures f.Side? ==> r.Ok? && r.value.height == f.n && r.value.width == f.n
    ensures f.Dims? && |f.items| == 2 ==> r.Ok? && r.value.width == f.items[0] && r.value.height == f.items[1]
  {
    match f
    case Default => Ok(Size(DEFAULT_SIZE, DEFAULT_SIZE))
    case Side(n) => Ok(Size(n, n))
    case Dims(items) => if |items| == 2 then Ok(Size(items[1], items[0])) else Err(UnpackMismatch)
  }

  /** Corollary of ParseFigSize: a size written back as a `(width, height)` pair parses to itself. */
  lemma FigSizeRoundTrip(s: Size)
    ensures ParseFigSize(Dims([s.width, s.height])) == Ok(s)
  {
  }

  // ---------------------------------------------------------------------------
  // Clamping the RR intervals

  /** The guard `np.any(rr >= 3000) | np.any(rr <= 200)`. */
  predicate NeedsClamp(s: seq<real>)
    ensures !NeedsClamp(s) ==> AllWithin(s, RR_MIN, RR_MAX)
  {
    exists i :: 0 <= i < |s| && (s[i] >= RR_MAX || s[i] <= RR_MIN)
  }

  /** The clamp as the source writes it: guarded, then two masked assignments. */
  function GuardedClamp(s: seq<real>): (r: seq<real>)
    ensures |r| == |s|
    ensures !NeedsClamp(s) ==> r == s
  {
    if NeedsClamp(s) then ReplaceBelow(ReplaceAbove(s, RR_MAX), RR_MIN) else s
  }

  /** The guard changes nothing: the guarded two-pass clamp is the plain clamp. */
  lemma GuardIrrelevant(s: seq<real>)
    ensures GuardedClamp(s) == ClampAll(s, RR_MIN, RR_MAX)
  {
    if NeedsClamp(s) {
      TwoPassIsClamp(s, RR_MIN, RR_MAX);
    } else {
      ClampAllFixesWithin(s, RR_MIN, RR_MAX);
    }
  }

  /**
   * `rr[rr > 3000] = 3000; rr[rr < 200] = 200` under the guard, applied to the
   * caller's array.
   */
  method ClampRR(rr: array<real>)
    modifies rr
    ensures rr[..] == ClampAll(old(rr[..]), RR_MIN, RR_MAX)
    ensures !NeedsClamp(old(rr[..])) ==> rr[..] == old(rr[..])
  {
    ghost var s := rr[..];
    if NeedsClamp(rr[..]) {
      AssignWhereAbove(rr, RR_MAX);
      AssignWhereBelow(rr, RR_MIN);
    }
    GuardIrrelevant(s);
  }

  // ---------------------------------------------------------------------------
  // Lag pairs and outliers

  /** `rr[:-1]` and `rr[1:]`: the pairs `(rr[n], rr[n+1])`; both empty when `rr` is. */
  function LagPairs(s: seq<real>): (p: (seq<real>, seq<real>))
    ensures |p.0| == |p.1| == if |s| == 0 then 0 else |s| - 1
    ensures forall i :: 0 <= i < |p.0| ==> p.0[i] == s[i] && p.1[i] == s[i + 1]
    ensures forall i :: 0 <= i < |p.0| - 1 ==> p.1[i] == p.0[i + 1]
  {
    if |s| == 0 then ([], []) else (s[..|s| - 1], s[1..])
  }

  /** A value sitting exactly on one of the clamp bounds. */
  predicate OnBound(v: real)
  {
    v == RR_MAX || v == RR_MIN
  }

  /** `(rr_x == 3000) | (rr_x == 200) | (rr_y == 3000) | (rr_y == 200)`. */
  function PairOutliers(x: seq<real>, y: seq<real>): (r: seq<bool>)
    requires |x| == |y|
    ensures |r| == |x|
    ensures forall i :: 0 <= i < |x| ==> (r[i] <==> OnBound(x[i]) || OnBound(y[i]))
  {
    seq(|x|, i requires 0 <= i < |x| => x[i] == RR_MAX || x[i] == RR_MIN || y[i] == RR_MAX || y[i] == RR_MIN)
  }

  /** The outlier mask of a clamped series, as computed by the source. */
  function ClampedOutliers(s: seq<real>): (r: seq<bool>)
    ensures |r| == |LagPairs(s).0|
    ensures forall i :: 0 <= i < |r| ==>
      (r[i] <==> OnBound(Clamp(s[i], RR_MIN, RR_MAX)) || OnBound(Clamp(s[i + 1], RR_MIN, RR_MAX)))
  {
    var c := ClampAll(s, RR_MIN, RR_MAX);
    var p := LagPairs(c);
    PairOutliers(p.0, p.1)
  }

  /** A clamped value sits on a bound exactly when the original was at or beyond it. */
  lemma ClampOnBound(v: real)
    ensures OnBound(Clamp(v, RR_MIN, RR_MAX)) <==> v <= RR_MIN || v >= RR_MAX
  {
  }

  /**
   * In terms of the caller's original values: pair `i` is an outlier exactly
   * when one of its two intervals was at or outside [200, 3000].
   */
  lemma OutlierIffAtOrBeyondBound(s: seq<real>, i: nat)
    requires i < |ClampedOutliers(s)|
    ensures ClampedOutliers(s)[i] <==>
      s[i] <= RR_MIN || s[i] >= RR_MAX || s[i + 1] <= RR_MIN || s[i + 1] >= RR_MAX
  {
    ClampOnBound(s[i]);
    ClampOnBound(s[i + 1]);
  }

  /** An interval outside [200, 3000] flags both pairs it belongs to. */
  lemma OutOfRangeFlagsNeighbours(s: seq<real>, j: nat)
    requires j < |s|
    requires s[j] < RR_MIN || s[j] > RR_MAX
    ensures 0 < j ==> ClampedOutliers(s)[j - 1]
    ensures j < |s| - 1 ==> ClampedOutliers(s)[j]
  {
    if 0 < j {
      OutlierIffAtOrBeyondBound(s, j - 1);
    }
    if j < |s| - 1 {
      OutlierIffAtOrBeyondBound(s, j);
    }
  }

  /** An interval of exactly 200 or 3000 ms is not altered by the clamp, yet flags its pairs. */
  lemma BoundValueFlagged(s: seq<real>, j: nat)
    requires j < |s|
    requires OnBound(s[j])
    ensures ClampAll(s, RR_MIN, RR_MAX)[j] == s[j]
    ensures 0 < j ==> ClampedOutliers(s)[j - 1]
    ensures j < |s| - 1 ==> ClampedOutliers(s)[j]
  {
    if 0 < j {
      OutlierIffAtOrBeyondBound(s, j - 1);
    }
    if j < |s| - 1 {
      OutlierIffAtOrBeyondBound(s, j);
    }
  }

  // ---------------------------------------------------------------------------
  // Axis range

  /** `s.min()`. */
  function SeqMin(s: seq<real>): (m: real)
    requires |s| > 0
    ensures m in s
    ensures forall i :: 0 <= i < |s| ==> m <= s[i]
  {
    if |s| == 1 then s[0]
    else
      var rest := SeqMin(s[1..]);
      if s[0] <= rest then s[0] else rest
  }

  /** `s.max()`. */
  function SeqMax(s: seq<real>): (m: real)
    requires |s| > 0
    ensures m in s
    ensures forall i :: 0 <= i < |s| ==> s[i] <= m
  {
    if |s| == 1 then s[0]
    else
      var rest := SeqMax(s[1..]);
      if s[0] >= rest then s[0] else rest
  }

  datatype Range = Range(low: real, high: real)

  /** `rr.min() - 50, rr.max() + 50`; numpy raises on an empty array. */
  function AxisRange(s: seq<real>): (r: Result<Range, Error>)
    ensures r.Err? <==> |s| == 0
    ensures r.Err? ==> r.error == EmptyArray
    ensures r.Ok? ==> r.value.low + RANGE_MARGIN in s && r.value.high - RANGE_MARGIN in s
    ensures r.Ok? ==> forall i :: 0 <= i < |s| ==> r.value.low + RANGE_MARGIN <= s[i] <= r.value.high - RANGE_MARGIN
    ensures r.Ok? ==> r.value.high - r.value.low >= 2.0 * RANGE_MARGIN
  {
    if |s| == 0 then Err(EmptyArray)
    else Ok(Range(SeqMin(s) - RANGE_MARGIN, SeqMax(s) + RANGE_MARGIN))
  }

  /** After the clamp, the axis range lies within [150, 3050]. */
  lemma ClampedAxisRange(s: seq<real>)
    requires |s| > 0
    ensures var r := AxisRange(ClampAll(s, RR_MIN, RR_MAX));
      r.Ok? && RR_MIN - RANGE_MARGIN <= r.value.low && r.value.high <= RR_MAX + RANGE_MARGIN
  {
    var c := ClampAll(s, RR_MIN, RR_MAX);
    var r := AxisRange(c).value;
    assert c[0] == Clamp(s[0], RR_MIN, RR_MAX);
    assert r.low + RANGE_MARGIN <= c[0] <= r.high - RANGE_MARGIN;
    var lo :| 0 <= lo < |c| && c[lo] == r.low + RANGE_MARGIN;
    var hi :| 0 <= hi < |c| && c[hi] == r.high - RANGE_MARGIN;
    assert c[lo] == Clamp(s[lo], RR_MIN, RR_MAX);
    assert c[hi] == Clamp(s[hi], RR_MIN, RR_MAX);
  }

  // ---------------------------------------------------------------------------
  // The whole preprocessing step

  datatype Scatter = Scatter(x: seq<real>, y: seq<real>)

  /** Everything the drawing calls receive, up to the foreign SD1/SD2 computation. */
  datatype PoincareData = PoincareData(
    size: Size,
    rrX: seq<real>,
    rrY: seq<real>,
    outliers: seq<bool>,
    range: Range,
    valid: Scatter,
    flagged: Scatter)

  /** The data derived from a (clamped) RR series once the figure size is known. */
  function PoincareView(size: Size, c: seq<real>): (r: Result<PoincareData, Error>)
    ensures r.Err? <==> |c| == 0
    ensures r.Ok? ==> r.value.size == size && |r.value.outliers| == |c| - 1
    ensures r.Ok? ==>
      (r.value.rrX, r.value.rrY) == LagPairs(c) &&
      r.value.outliers == PairOutliers(LagPairs(c).0, LagPairs(c).1) &&
      r.value.range == AxisRange(c).value &&
      r.value.valid == Scatter(Select(r.value.rrX, Not(r.value.outliers)).value,
                               Select(r.value.rrY, Not(r.value.outliers)).value) &&
      r.value.flagged == Scatter(Select(r.value.rrX, r.value.outliers).value,
                                 Select(r.value.rrY, r.value.outliers).value)
  {
    var p := LagPairs(c);
    var outliers := PairOutliers(p.0, p.1);
    var range :- AxisRange(c);
    var valid := Scatter(Select(p.0, Not(outliers)).value, Select(p.1, Not(outliers)).value);
    var flagged := Scatter(Select(p.0, outliers).value, Select(p.1, outliers).value);
    Ok(PoincareData(size, p.0, p.1, outliers, range, valid, flagged))
  }

  /**
   * The pairs drawn as valid are the unflagged ones, and after the clamp they
   * lie strictly inside (200, 3000) on both axes; valid and flagged pairs
   * together are all the pairs.
   */
  lemma ValidPairsInside(size: Size, s: seq<real>)
    requires |s| > 0
    ensures var c := ClampAll(s, RR_MIN, RR_MAX);
      var v := PoincareView(size, c).value;
      |v.valid.x| == |v.valid.y| && |v.flagged.x| == |v.flagged.y| &&
      |v.valid.x| + |v.flagged.x| == |s| - 1 &&
      forall k :: 0 <= k < |v.valid.x| ==>
        RR_MIN < v.valid.x[k] < RR_MAX && RR_MIN < v.valid.y[k] < RR_MAX
  {
    var c := ClampAll(s, RR_MIN, RR_MAX);
    var v := PoincareView(size, c).value;
    WherePartition(v.outliers);
    var w := Where(Not(v.outliers));
    forall k | 0 <= k < |v.valid.x|
      ensures RR_MIN < v.valid.x[k] < RR_MAX && RR_MIN < v.valid.y[k] < RR_MAX
    {
      var i := w[k];
      assert !v.outliers[i];
      assert v.valid.x[k] == c[i] && v.valid.y[k] == c[i + 1];
    }
  }

  /**
   * `plot_pointcare` up to drawing: a `figsize` that cannot be unpacked fails before the
   * caller's array is touched; otherwise the array is clamped in place and the
   * plotted data is derived from the clamped values.
   */
  method PlotPointcare(rr: array<real>, figsize: FigSize) returns (r: Result<PoincareData, Error>)
    modifies rr
    ensures ParseFigSize(figsize).Err? ==> r == Err(UnpackMismatch) && rr[..] == old(rr[..])
    ensures ParseFigSize(figsize).Ok? ==>
      rr[..] == ClampAll(old(rr[..]), RR_MIN, RR_MAX) &&
      r == PoincareView(ParseFigSize(figsize).value, rr[..])
    ensures r.Err? <==> ParseFigSize(figsize).Err? || rr.Length == 0
  {
    var size :- ParseFigSize(figsize);
    ClampRR(rr);
    r := PoincareView(size, rr[..]);
  }
}
