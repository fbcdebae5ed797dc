# systole plotting preprocessing, modelled in Dafny

systole's plotting backends do some deterministic array work before they
draw anything. This project models that work and proves properties of it.

- **`plot_ectopic`.** The matplotlib and bokeh backends run the same code.
  The outlier mask is the OR of the five artefact flag arrays (`ectopic`,
  `short`, `long`, `extra`, `missed`). Then `subspace1` is clamped to
  [-10, 10] and `subspace2` to [-5, 5], in place, in the caller's artefact
  dictionary. Each category's points are then picked out by boolean
  indexing. The wedge boundary lines are `f1(x) = -0.13 x + 0.17` and
  `f2(x) = -0.13 x - 0.17`.
- **bokeh `plot_pointcare`.** It parses the figure size, then clamps the
  caller's RR array (ms) to [200, 3000] in place. It then forms the lag pairs
  `(rr[n], rr[n+1])` and flags a pair when either member sits exactly on a
  clamp bound. The axis range is `min - 50 .. max + 50`.

Modules:

- `Wrappers`: `Option` and `Result`.
- `ArrayOps`: the numpy semantics these files use.
  - Masked assignment `a[a > b] = b` as loop methods over `array<real>`.
  - `|` on boolean arrays, with one-dimensional broadcasting.
  - `~`, `np.where` and boolean indexing.
  - `Clamp`/`ClampAll`, the reference definition the two masked assignments
    are proved against.
- `EctopicSubspace`: the preprocessing both `plot_ectopic` backends share.
  - The artefact dictionary is a class whose const fields are the
    caller-owned arrays.
  - The in-place clamp handles the case where `subspace1` and `subspace2` are
    the same array.
- `MatplotlibEctopic` and `BokehEctopic`: each backend's constants and its
  lines `f1` and `f2`.
- `BokehPointcare`: `plot_pointcare` up to its drawing calls.

Values are `real` milliseconds or subspace units, and comparisons are exact.
Where the code raises, the model returns an error:
- numpy shape errors when `|` is applied to arrays that do not broadcast;
- boolean indexing with a mask of a different length;
- unpacking a `figsize` that does not hold two items;
- `min()` of an empty array.

The order of effects matches the code:
- A mask shape error is raised before any array is clamped.
- An indexing error is raised after the caller's subspace arrays have been
  overwritten.
- A `figsize` error is raised before the RR array is touched.

`plot_pointcare` and `plot_ectopic` overwrite the caller's arrays. The model
follows the code: the clamp methods take the caller's `array` and modify it in
place.

## Model

| member | source | states |
|---|---|---|
| ArrayOps.Clamp | systole/plots/backends/matplotlib/plot_ectopic.py:55-56 | the result lies in [lo, hi]; an in-range value is unchanged; a value above hi becomes hi and one below lo becomes lo |
| ArrayOps.ClampAll | systole/plots/backends/matplotlib/plot_ectopic.py:54-59 | element-wise clamp: same length, each element clamped |
| ArrayOps.AssignWhereAbove | systole/plots/backends/matplotlib/plot_ectopic.py:55 | in place, `a[a > bound] = bound`: elements above the bound become the bound, all others keep their value |
| ArrayOps.AssignWhereBelow | systole/plots/backends/matplotlib/plot_ectopic.py:56 | in place, `a[a < bound] = bound` |
| ArrayOps.ReplaceAbove | systole/plots/backends/matplotlib/plot_ectopic.py:55 | the value `a[a > bound] = bound` leaves: same length, elements at most the bound kept, elements above it replaced by the bound |
| ArrayOps.ReplaceBelow | systole/plots/backends/matplotlib/plot_ectopic.py:56 | the value `a[a < bound] = bound` leaves: same length, elements at least the bound kept, elements below it replaced by the bound |
| ArrayOps.TwoPassIsClamp | systole/plots/backends/matplotlib/plot_ectopic.py:55-56 | the two masked assignments, upper bound first, give exactly the element-wise clamp |
| ArrayOps.ClampAllWithin | systole/plots/backends/bokeh/plot_ectopic.py:49-55 | after clamping, the length is kept and every element lies within the bounds |
| ArrayOps.ClampAllFixesWithin | systole/plots/backends/bokeh/plot_ectopic.py:49-55 | a sequence already within the bounds is unchanged |
| ArrayOps.ClampAllIdempotent | systole/plots/backends/matplotlib/plot_ectopic.py:54-59 | clamping twice equals clamping once |
| ArrayOps.ClampAllNested | systole/plots/backends/matplotlib/plot_ectopic.py:54-59 | clamping to [-10, 10] and then to the narrower [-5, 5] equals clamping to [-5, 5]; this is the aliased-array case |
| ArrayOps.Or | systole/plots/backends/matplotlib/plot_ectopic.py:45-51 | numpy element-wise or of two boolean arrays: defined exactly when the lengths broadcast; gives the broadcast length and the element-wise OR; equal lengths always succeed |
| ArrayOps.Not | systole/plots/backends/matplotlib/plot_ectopic.py:66-67 | `~m`: same length, each element negated |
| ArrayOps.Where | systole/plots/backends/bokeh/plot_pointcare.py:45 | `np.where(m)[0]`: strictly increasing positions, each in range with `m` true, and every true position is listed |
| ArrayOps.Select | systole/plots/backends/matplotlib/plot_ectopic.py:66-67 | boolean indexing `xs[m]`: fails exactly when the lengths differ; otherwise gives the elements at the positions `Where(m)` lists, in order |
| ArrayOps.WherePartition | systole/plots/backends/matplotlib/plot_ectopic.py:65-67 | every position is listed by exactly one of `Where(m)` and `Where(~m)`, and their sizes add up to the length |
| ArrayOps.SelectWithin | systole/plots/backends/bokeh/plot_ectopic.py:83-85 | what is selected from a bounded array is bounded |
| EctopicSubspace.Artefacts.constructor | systole/plots/backends/matplotlib/plot_ectopic.py:10-22 | the artefact record holds the caller's seven arrays themselves, not copies, so the in-place clamp is visible to the caller |
| EctopicSubspace.OutlierMask | systole/plots/backends/matplotlib/plot_ectopic.py:45-51 | the mask exists exactly when every pair of the five flag lengths broadcasts (equal, or one of them 1); its length is one of the five and every flag length is 1 or that length; each element is the OR of the broadcast flags, so with equal-length flags `outliers[i]` holds iff at least one flag holds at i |
| EctopicSubspace.FlagIsOutlier | systole/plots/backends/bokeh/plot_ectopic.py:41-47 | corollary of `OutlierMask`: for aligned flags, each flag implies the outlier bit, and a beat is not an outlier iff none of the five flags holds |
| EctopicSubspace.ClampSubspaces | systole/plots/backends/bokeh/plot_ectopic.py:49-55 | in place in the caller's arrays: `subspace1` becomes its clamp to [-xlim, xlim] and `subspace2` its clamp to [-ylim, ylim]; if both keys hold one array, it gets both clamps |
| EctopicSubspace.SelectPoints | systole/plots/backends/matplotlib/plot_ectopic.py:78-79 | a category's points exist exactly when both subspace arrays have the mask's length, and they are then `(subspace1[mask], subspace2[mask])` |
| EctopicSubspace.ScatterView | systole/plots/backends/matplotlib/plot_ectopic.py:65-118 | the scatter calls succeed exactly when all seven arrays have the mask's length; they then receive the mask unchanged, the normal points `subspace[~outliers]`, and for each of ectopic, short, long, missed and extra the points `subspace[flag]` |
| EctopicSubspace.NormalIsComplement | systole/plots/backends/matplotlib/plot_ectopic.py:65-67 | the points drawn as normal are the subspace values at exactly the positions the mask does not flag; normal and outlier positions partition the index range |
| EctopicSubspace.ScatterWithin | systole/plots/backends/bokeh/plot_ectopic.py:83-140 | once the subspaces are clamped, every point any scatter call receives lies within [-xlim, xlim] x [-ylim, ylim] |
| EctopicSubspace.PlotEctopicData | systole/plots/backends/matplotlib/plot_ectopic.py:45-67 | the mask comes from the flags as they are on entry; on a mask shape error nothing is written; otherwise the subspaces are clamped in place and the points come from the clamped values; the flag arrays are not in the frame |
| EctopicSubspace.UpperLine | systole/plots/backends/matplotlib/plot_ectopic.py:121-122 | `f1(x) = -c1 x + c2`: the line of slope -c1 through (0, c2) |
| EctopicSubspace.LowerLine | systole/plots/backends/matplotlib/plot_ectopic.py:131-132 | `f2(x) = -c1 x - c2`: the line of slope -c1 through (0, -c2) |
| EctopicSubspace.LinesParallel | systole/plots/backends/matplotlib/plot_ectopic.py:121-122 | `f1(x) - f2(x) = 2 c2` for every x, and the two lines have equal rises over any interval |
| EctopicSubspace.LinesPointSymmetric | systole/plots/backends/matplotlib/plot_ectopic.py:131-132 | `f2(-x) = -f1(x)` |
| MatplotlibEctopic.F1 | systole/plots/backends/matplotlib/plot_ectopic.py:121-122 | the upper line with c1 = 0.13 and c2 = 0.17; `f1(-1) = 0.3` and `f1(-10) = 1.47` |
| MatplotlibEctopic.F2 | systole/plots/backends/matplotlib/plot_ectopic.py:131-132 | the lower line with the same constants; `f2(1) = -0.3` and `f2(10) = -1.47` |
| MatplotlibEctopic.BoundaryGap | systole/plots/backends/matplotlib/plot_ectopic.py:121-132 | with c1 = 0.13 and c2 = 0.17, `f1(x) - f2(x) = 0.34` |
| MatplotlibEctopic.BoundarySymmetry | systole/plots/backends/matplotlib/plot_ectopic.py:131-132 | `f2(-x) = -f1(x)` |
| MatplotlibEctopic.PlotEctopic | systole/plots/backends/matplotlib/plot_ectopic.py:43-67 | with xlim = 10 and ylim = 5: subspace1 ends in [-10, 10] and subspace2 in [-5, 5], each equal to the clamp of its old value (an aliased array ends as the [-5, 5] clamp); the mask and points are as in `PlotEctopicData` |
| BokehEctopic.F1 | systole/plots/backends/bokeh/plot_ectopic.py:69-70 | the upper line with c1 = 0.13 and c2 = 0.17; `f1(-1) = 0.3` and `f1(-10) = 1.47` |
| BokehEctopic.F2 | systole/plots/backends/bokeh/plot_ectopic.py:77-78 | the lower line with the same constants; `f2(1) = -0.3` and `f2(10) = -1.47` |
| BokehEctopic.BoundaryGap | systole/plots/backends/bokeh/plot_ectopic.py:69-78 | `f1(x) - f2(x) = 0.34` |
| BokehEctopic.BoundarySymmetry | systole/plots/backends/bokeh/plot_ectopic.py:77-78 | `f2(-x) = -f1(x)` |
| BokehEctopic.SameAsMatplotlib | systole/plots/backends/bokeh/plot_ectopic.py:39 | c1, c2, xlim and ylim equal the matplotlib backend's, and so do f1 and f2 at every x |
| BokehEctopic.PlotEctopic | systole/plots/backends/bokeh/plot_ectopic.py:39-85 | the same contract as `MatplotlibEctopic.PlotEctopic`, with this backend's constants |
| BokehPointcare.ParseFigSize | systole/plots/backends/bokeh/plot_pointcare.py:35-40 | `None` gives 400 x 400; an int n gives height = width = n; a two-item pair (a, b) gives width a and height b; any other item count is an unpacking error |
| BokehPointcare.FigSizeRoundTrip | systole/plots/backends/bokeh/plot_pointcare.py:40 | corollary of `ParseFigSize`: a size written as the pair (width, height) parses back to itself |
| BokehPointcare.NeedsClamp | systole/plots/backends/bokeh/plot_pointcare.py:42 | the guard: some value is at least 3000 or at most 200; when it is false every value already lies in [200, 3000] |
| BokehPointcare.GuardedClamp | systole/plots/backends/bokeh/plot_pointcare.py:42-46 | the clamp as written, guarded: same length, and the series is untouched when the guard is false |
| BokehPointcare.GuardIrrelevant | systole/plots/backends/bokeh/plot_pointcare.py:42-46 | the `>=`/`<=` guard with the strict masked assignments under it equals the unconditional clamp to [200, 3000] |
| BokehPointcare.ClampRR | systole/plots/backends/bokeh/plot_pointcare.py:42-46 | in place in the caller's array: rr becomes its clamp to [200, 3000]; if no element is at or beyond a bound, rr is unchanged |
| BokehPointcare.LagPairs | systole/plots/backends/bokeh/plot_pointcare.py:49 | `rr[:-1]` and `rr[1:]` both have length N-1 (0 when rr is empty); `rr_x[i] = rr[i]`, `rr_y[i] = rr[i+1]` and `rr_y[i] = rr_x[i+1]` |
| BokehPointcare.PairOutliers | systole/plots/backends/bokeh/plot_pointcare.py:52 | `outliers[i]` holds iff `rr_x[i]` or `rr_y[i]` equals 200 or 3000 |
| BokehPointcare.ClampedOutliers | systole/plots/backends/bokeh/plot_pointcare.py:45-52 | the outlier mask of a clamped series: one flag per lag pair, set iff the clamped value of either member sits on a bound |
| BokehPointcare.ClampOnBound | systole/plots/backends/bokeh/plot_pointcare.py:45-46 | a clamped value is exactly 200 or 3000 iff the original was at or beyond that bound |
| BokehPointcare.OutlierIffAtOrBeyondBound | systole/plots/backends/bokeh/plot_pointcare.py:42-52 | in terms of the caller's original values: pair i is flagged iff `rr[i]` or `rr[i+1]` was ≤ 200 or ≥ 3000 |
| BokehPointcare.OutOfRangeFlagsNeighbours | systole/plots/backends/bokeh/plot_pointcare.py:45-52 | a value outside [200, 3000] at position j flags pair j-1 (if j > 0) and pair j (if j < N-1) |
| BokehPointcare.BoundValueFlagged | systole/plots/backends/bokeh/plot_pointcare.py:45-52 | a value of exactly 200 or 3000 is left as it is by the clamp, yet it flags both its pairs |
| BokehPointcare.SeqMin | systole/plots/backends/bokeh/plot_pointcare.py:53 | `rr.min()` is an element of rr and is no larger than any element |
| BokehPointcare.SeqMax | systole/plots/backends/bokeh/plot_pointcare.py:53 | `rr.max()` is an element of rr and is no smaller than any element |
| BokehPointcare.AxisRange | systole/plots/backends/bokeh/plot_pointcare.py:53 | fails exactly on an empty array; otherwise `range_min + 50` and `range_max - 50` are the least and the greatest element, so `range_max - range_min >= 100` |
| BokehPointcare.ClampedAxisRange | systole/plots/backends/bokeh/plot_pointcare.py:45-53 | after the clamp, `150 <= range_min` and `range_max <= 3050` |
| BokehPointcare.PoincareView | systole/plots/backends/bokeh/plot_pointcare.py:49-53 | fails exactly on an empty series; otherwise it keeps the figure size, `rr_x`/`rr_y` are the lag pairs of the series, the outliers are their bound test, the range is `AxisRange`, and the valid and flagged scatters are `rr_x`/`rr_y` indexed by `~outliers` and `outliers` |
| BokehPointcare.ValidPairsInside | systole/plots/backends/bokeh/plot_pointcare.py:92-104 | the pairs drawn as valid and those drawn as outliers together are all N-1 pairs, and after the clamp every valid pair lies strictly inside (200, 3000) on both axes |
| BokehPointcare.PlotPointcare | systole/plots/backends/bokeh/plot_pointcare.py:35-53 | a bad `figsize` fails before rr is touched; otherwise rr is clamped in place and the data comes from the clamped values; it fails exactly on a bad `figsize` or an empty rr |

## Left out

- All drawing calls are left out: figures, axes, scatter, patch, fill,
  lines, ellipse, arrows, labels and legends. The model stops at the arrays
  these calls receive, and does not model the draw order.
- The wedge polygon vertices are drawing details and are not modelled. The
  two backends use different vertices (`f1(-10)` against `f1(-5)`), and
  neither decides any classification.
- How the artefact flags and the subspace coordinates are computed
  (`rr_artefacts`) is not part of this model. The flags and coordinates are
  inputs.
- SD1 and SD2 come from the foreign call `nonlinear(rr)` and the DataFrame
  lookup after it. Both are not part of this model.
- The ellipse centre and the arrow endpoints use floating-point means and
  trigonometry, so they are left out. An empty mean gives NaN, not an error.
- A missing dictionary key (`KeyError`) is not modelled: the `Artefacts`
  class always has all seven entries. The source's default value for
  `artefacts` is the typing object `Dict[str, np.ndarray]`. That default
  would fail at the first lookup, and callers are assumed to pass a record.
- MatplotlibEctopic.PlotEctopic: does not model the failure of
  `plt.subplots(figsize=figsize)` at lines 61-62 of the matplotlib backend.
  matplotlib needs `figsize` as a (width, height) pair, so on the default path
  (`ax=None`, the integer `figsize=600`) that call raises `TypeError`. By then
  the caller's subspace arrays have already been clamped (lines 54-59). The
  model returns `Ok` there, because it stops before the drawing calls.
- The line lemmas (`LinesParallel`, `LinesPointSymmetric`, `BoundaryGap`,
  `BoundarySymmetry`) are about the real-valued lines. In the source's double
  arithmetic `f1(x) - f2(x) = 0.34` and `f2(-x) = -f1(x)` hold only up to
  rounding; for |x| around 1e17 the difference rounds to 0.
- `isinstance(figsize, int)` treats Python `bool` as `int`; `FigSize` has no
  separate bool case. Non-integer items inside a `figsize` pair are not
  modelled either.
- numpy dtype effects are not modelled: an integer RR array stores
  3000/200 exactly, as the `real` model does. NaN values are not modelled.
- `for this_art in [...]` loops over a single-element list, so the model
  applies its body once, directly.
