/** The bokeh `plot_ectopic` backend: its constants, its boundary lines and its preprocessing. */
module BokehEctopic {
  import MatplotlibEctopic
  import opened Wrappers
  import opened ArrayOps
  import opened EctopicSubspace

  const C1: real := 0.13
  const C2: real := 0.17
  const XLIM: real := 10.0
  const YLIM: real := 5.0

  /** Upper boundary of the ectopic wedges. */
  function F1(x: real): (y: real)
    ensures y == UpperLine(C1, C2, x)
    ensures x == -1.0 ==> y == 0.3
    ensures x == -10.0 ==> y == 1.47
  {
    UpperLine(C1, C2, x)
  }

  /** Lower boundary of the ectopic wedges. */
  function F2(x: real): (y: real)
    ensures y == LowerLine(C1, C2, x)
    ensures x == 1.0 ==> y == -0.3
    ensures x == 10.0 ==> y == -1.47
  {
    LowerLine(C1, C2, x)
  }

  /** The two boundaries are parallel and 0.34 apart. */
  lemma BoundaryGap(x: real)
    ensures F1(x) - F2(x) == 0.34
  {
    LinesParallel(C1, C2, x, x);
  }

  /** `f2(-x) == -f1(x)`. */
  lemma BoundarySymmetry(x: real)
    ensures F2(-x) == -F1(x)
  {
    LinesPointSymmetric(C1, C2, x);
  }

  /** Both backends use the same constants, hence the same lines and the same clamp. */
  lemma SameAsMatplotlib(x: real)
    ensures C1 == MatplotlibEctopic.C1 && C2 == MatplotlibEctopic.C2
    ensures XLIM == MatplotlibEctopic.XLIM && YLIM == MatplotlibEctopic.YLIM
    ensures F1(x) == MatplotlibEctopic.F1(x) && F2(x) == MatplotlibEctopic.F2(x)
  {
  }

  /**
   * The preprocessing of `plot_ectopic` with this backend's limits: mask,
   * in-place clamp of the two subspace arrays, scatter points.
   */
  method PlotEctopic(art: Artefacts) returns (r: Result<EctopicScatter, Error>)
    modifies art.subspace1, art.subspace2
    ensures var mask := OutlierMask(art.ectopic[..], art.short[..], art.long[..], art.extra[..], art.missed[..]);
      if mask.None? then
        r == Err(ShapeMismatch) &&
        art.subspace1[..] == old(art.subspace1[..]) && art.subspace2[..] == old(art.subspace2[..])
      else
        (art.subspace1 != art.subspace2 ==>
           art.subspace1[..] == ClampAll(old(art.subspace1[..]), -XLIM, XLIM) &&
           art.subspace2[..] == ClampAll(old(art.subspace2[..]), -YLIM, YLIM)) &&
        (art.subspace1 == art.subspace2 ==>
           art.subspace2[..] == ClampAll(old(art.subspace1[..]), -YLIM, YLIM)) &&
        AllWithin(art.subspace1[..], -XLIM, XLIM) && AllWithin(art.subspace2[..], -YLIM, YLIM) &&
        r == ScatterView(mask.value, art.ectopic[..], art.short[..], art.long[..], art.extra[..],
                         art.missed[..], art.subspace1[..], art.subspace2[..])
  {
    ghost var s1, s2 := art.subspace1[..], art.subspace2[..];
    r := PlotEctopicData(art, XLIM, YLIM);
    ClampAllNested(s1, -XLIM, XLIM, -YLIM, YLIM);
    ClampAllWithin(s1, -XLIM, XLIM);
    ClampAllWithin(s2, -YLIM, YLIM);
    ClampAllWithin(s1, -YLIM, YLIM);
  }
}
