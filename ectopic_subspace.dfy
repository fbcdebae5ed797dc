/**
 * The preprocessing shared by both `plot_ectopic` backends, which run the same
 * code before drawing: the outlier mask is the OR of the five artefact flags,
 * then the two subspace arrays of the caller's artefact record are clamped in
 * place, then the points of each category are picked out by boolean indexing.
 * The backends fix the constants (module MatplotlibEctopic, module BokehEctopic).
 */
module EctopicSubspace {
  import opened Wrappers
  import opened ArrayOps

  /** numpy raises when arrays that are combined or indexed together have incompatible lengths. */
  datatype Error = ShapeMismatch

  /**
   * The caller's artefact dictionary: five boolean flag arrays and the two
   * subspace coordinate arrays. Its entries are never replaced; the arrays
   * they point to are caller-owned and the subspace arrays are overwritten.
   */
  class Artefacts {
    const ectopic: array<bool>
    const short: array<bool>
    const long: array<bool>
    const extra: array<bool>
    const missed: array<bool>
    const subspace1: array<real>
    const subspace2: array<real>

    constructor (ectopic: array<bool>, short: array<bool>, long: array<bool>, extra: array<bool>,
                 missed: array<bool>, subspace1: array<real>, subspace2: array<real>)
      ensures this.ectopic == ectopic && this.short == short && this.long == long
      ensures this.extra == extra && this.missed == missed
      ensures this.subspace1 == subspace1 && this.subspace2 == subspace2
    {
      this.ectopic := ectopic;
      this.short := short;
      this.long := long;
      this.extra := extra;
      this.missed := missed;
      this.subspace1 := subspace1;
      this.subspace2 := subspace2;
    }
  }

  // ---------------------------------------------------------------------------
  // Outlier mask

  /** `ectopic | short | long | extra | missed`, evaluated left to right with numpy broadcasting. */
  function OutlierMask(ectopic: seq<bool>, short: seq<bool>, long: seq<bool>, extra: seq<bool>,
                       missed: seq<bool>): (r: Option<seq<bool>>)
    ensures var lens := [|ectopic|, |short|, |long|, |extra|, |missed|];
      r.Some? <==> forall a, b :: a in lens && b in lens ==> Broadcastable(a, b)
    ensures var lens := [|ectopic|, |short|, |long|, |extra|, |missed|];
      r.Some? ==> |r.value| in lens && forall n :: n in lens ==> n == 1 || n == |r.value|
    ensures r.Some? ==> forall i :: 0 <= i < |r.value| ==>
      (|ectopic| == 1 || i < |ectopic|) && (|short| == 1 || i < |short|) && (|long| == 1 || i < |long|) &&
      (|extra| == 1 || i < |extra|) && (|missed| == 1 || i < |missed|) &&
      (r.value[i] <==> At(ectopic, i) || At(short, i) || At(long, i) || At(extra, i) || At(missed, i))
    ensures |short| == |ectopic| && |long| == |ectopic| && |extra| == |ectopic| && |missed| == |ectopic| ==>
      r.Some? && |r.value| == |ectopic| &&
      forall i :: 0 <= i < |ectopic| ==>
        (r.value[i] <==> ectopic[i] || short[i] || long[i] || extra[i] || missed[i])
  {
    var a :- Or(ectopic, short);
    var b :- Or(a, long);
    var c :- Or(b, extra);
    Or(c, missed)
  }

  /** Corollary of OutlierMask: with aligned flags, every flagged beat is an outlier and every outlier carries some flag. */
  lemma FlagIsOutlier(ectopic: seq<bool>, short: seq<bool>, long: seq<bool>, extra: seq<bool>,
                      missed: seq<bool>, i: nat)
    requires |short| == |ectopic| && |long| == |ectopic| && |extra| == |ectopic| && |missed| == |ectopic|
    requires i < |ectopic|
    ensures OutlierMask(ectopic, short, long, extra, missed).Some?
    ensures var outliers := OutlierMask(ectopic, short, long, extra, missed).value;
      (ectopic[i] ==> outliers[i]) && (short[i] ==> outliers[i]) && (long[i] ==> outliers[i]) &&
      (extra[i] ==> outliers[i]) && (missed[i] ==> outliers[i]) &&
      (!outliers[i] <==> !ectopic[i] && !short[i] && !long[i] && !extra[i] && !missed[i])
  {
  }

  // ---------------------------------------------------------------------------
  // In-place clamping of the subspace arrays

  /**
   * `subspace1` clamped to [-xlim, xlim], then `subspace2` to [-ylim, ylim],
   * both in place. When both entries name the same array it receives both clamps.
   */
  method ClampSubspaces(art: Artefacts, xlim: real, ylim: real)
    requires 0.0 <= xlim && 0.0 <= ylim
    modifies art.subspace1, art.subspace2
    ensures art.subspace1 != art.subspace2 ==>
      art.subspace1[..] == ClampAll(old(art.subspace1[..]), -xlim, xlim) &&
      art.subspace2[..] == ClampAll(old(art.subspace2[..]), -ylim, ylim)
    ensures art.subspace1 == art.subspace2 ==>
      art.subspace2[..] == ClampAll(ClampAll(old(art.subspace1[..]), -xlim, xlim), -ylim, ylim)
  {
    ghost var s1, s2 := art.subspace1[..], art.subspace2[..];
    AssignWhereAbove(art.subspace1, xlim);
    AssignWhereBelow(art.subspace1, -xlim);
    TwoPassIsClamp(s1, -xlim, xlim);
    ghost var t2 := art.subspace2[..];
    AssignWhereAbove(art.subspace2, ylim);
    AssignWhereBelow(art.subspace2, -ylim);
    TwoPassIsClamp(t2, -ylim, ylim);
  }

  // ---------------------------------------------------------------------------
  // The points handed to the drawing calls

  datatype Points = Points(x: seq<real>, y: seq<real>)

  /** Everything the drawing calls receive: the mask and the points of each legend entry. */
  datatype EctopicScatter = EctopicScatter(
    outliers: seq<bool>,
    normal: Points,
    ectopic: Points,
    short: Points,
    long: Points,
    missed: Points,
    extra: Points)

  /** `(subspace1[mask], subspace2[mask])`. */
  function SelectPoints(subspace1: seq<real>, subspace2: seq<real>, mask: seq<bool>): (r: Option<Points>)
    ensures r.Some? <==> |subspace1| == |mask| && |subspace2| == |mask|
    ensures r.Some? ==> r.value == Points(Select(subspace1, mask).value, Select(subspace2, mask).value)
  {
    var x :- Select(subspace1, mask);
    var y :- Select(subspace2, mask);
    Some(Points(x, y))
  }

  /** The points of each scatter call, from the mask and the (already clamped) subspace values. */
  function ScatterView(outliers: seq<bool>, ectopic: seq<bool>, short: seq<bool>, long: seq<bool>,
                       extra: seq<bool>, missed: seq<bool>, subspace1: seq<real>, subspace2: seq<real>)
    : (r: Result<EctopicScatter, Error>)
    ensures r.Ok? <==>
      |subspace1| == |outliers| && |subspace2| == |outliers| && |ectopic| == |outliers| &&
      |short| == |outliers| && |long| == |outliers| && |missed| == |outliers| && |extra| == |outliers|
    ensures r.Ok? ==> r.value.outliers == outliers
    ensures r.Ok? ==>
      r.value.normal == SelectPoints(subspace1, subspace2, Not(outliers)).value &&
      r.value.ectopic == SelectPoints(subspace1, subspace2, ectopic).value &&
      r.value.short == SelectPoints(subspace1, subspace2, short).value &&
      r.value.long == SelectPoints(subspace1, subspace2, long).value &&
      r.value.missed == SelectPoints(subspace1, subspace2, missed).value &&
      r.value.extra == SelectPoints(subspace1, subspace2, extra).value
  {
    var normal := SelectPoints(subspace1, subspace2, Not(outliers));
    var e := SelectPoints(subspace1, subspace2, ectopic);
    var s := SelectPoints(subspace1, subspace2, short);
    var l := SelectPoints(subspace1, subspace2, long);
    var m := SelectPoints(subspace1, subspace2, missed);
    var x := SelectPoints(subspace1, subspace2, extra);
    if normal.None? || e.None? || s.None? || l.None? || m.None? || x.None? then Err(ShapeMismatch)
    else Ok(EctopicScatter(outliers, normal.value, e.value, s.value, l.value, m.value, x.value))
  }

  /**
   * The beats drawn as normal are exactly those the mask does not flag: they and
   * the outliers share out the positions, and each normal point is the subspace
   * value at its position.
   */
  lemma NormalIsComplement(outliers: seq<bool>, ectopic: seq<bool>, short: seq<bool>, long: seq<bool>,
                           extra: seq<bool>, missed: seq<bool>, subspace1: seq<real>, subspace2: seq<real>)
    requires ScatterView(outliers, ectopic, short, long, extra, missed, subspace1, subspace2).Ok?
    ensures var v := ScatterView(outliers, ectopic, short, long, extra, missed, subspace1, subspace2).value;
      |v.normal.x| == |v.normal.y| == |Where(Not(outliers))| &&
      |v.normal.x| + |Where(outliers)| == |outliers| &&
      (forall i :: 0 <= i < |outliers| ==> (i in Where(Not(outliers)) <==> !outliers[i])) &&
      (forall k :: 0 <= k < |v.normal.x| ==>
         !outliers[Where(Not(outliers))[k]] &&
         v.normal.x[k] == subspace1[Where(Not(outliers))[k]] &&
         v.normal.y[k] == subspace2[Where(Not(outliers))[k]])
  {
    WherePartition(outliers);
  }

  /** Every point the scatter calls receive lies inside the clamped window. */
  lemma ScatterWithin(outliers: seq<bool>, ectopic: seq<bool>, short: seq<bool>, long: seq<bool>,
                      extra: seq<bool>, missed: seq<bool>, subspace1: seq<real>, subspace2: seq<real>,
                      xlim: real, ylim: real)
    requires ScatterView(outliers, ectopic, short, long, extra, missed, subspace1, subspace2).Ok?
    requires AllWithin(subspace1, -xlim, xlim) && AllWithin(subspace2, -ylim, ylim)
    ensures var v := ScatterView(outliers, ectopic, short, long, extra, missed, subspace1, subspace2).value;
      forall p :: p in [v.normal, v.ectopic, v.short, v.long, v.missed, v.extra] ==>
        AllWithin(p.x, -xlim, xlim) && AllWithin(p.y, -ylim, ylim)
  {
    var n := |outliers|;
    SelectWithin(subspace1, Not(outliers), -xlim, xlim);
    SelectWithin(subspace2, Not(outliers), -ylim, ylim);
    SelectWithin(subspace1, ectopic, -xlim, xlim);
    SelectWithin(subspace2, ectopic, -ylim, ylim);
    SelectWithin(subspace1, short, -xlim, xlim);
    SelectWithin(subspace2, short, -ylim, ylim);
    SelectWithin(subspace1, long, -xlim, xlim);
    SelectWithin(subspace2, long, -ylim, ylim);
    SelectWithin(subspace1, missed, -xlim, xlim);
    SelectWithin(subspace2, missed, -ylim, ylim);
    SelectWithin(subspace1, extra, -xlim, xlim);
    SelectWithin(subspace2, extra, -ylim, ylim);
  }

  // ---------------------------------------------------------------------------
  // The whole preprocessing step

  /**
   * The outlier mask from the flags as they are on entry, then the in-place
   * clamp, then the scatter points from the clamped values. A shape error in
   * the mask is raised before anything is clamped; one in the boolean indexing
   * only after the clamp has overwritten the caller's arrays.
   */
  method PlotEctopicData(art: Artefacts, xlim: real, ylim: real) returns (r: Result<EctopicScatter, Error>)
    requires 0.0 <= xlim && 0.0 <= ylim
    modifies art.subspace1, art.subspace2
    ensures var mask := OutlierMask(art.ectopic[..], art.short[..], art.long[..], art.extra[..], art.missed[..]);
      if mask.None? then
        r == Err(ShapeMismatch) &&
        art.subspace1[..] == old(art.subspace1[..]) && art.subspace2[..] == old(art.subspace2[..])
      else
        (art.subspace1 != art.subspace2 ==>
           art.subspace1[..] == ClampAll(old(art.subspace1[..]), -xlim, xlim) &&
           art.subspace2[..] == ClampAll(old(art.subspace2[..]), -ylim, ylim)) &&
        (art.subspace1 == art.subspace2 ==>
           art.subspace2[..] == ClampAll(ClampAll(old(art.subspace1[..]), -xlim, xlim), -ylim, ylim)) &&
        r == ScatterView(mask.value, art.ectopic[..], art.short[..], art.long[..], art.extra[..],
                         art.missed[..], art.subspace1[..], art.subspace2[..])
  {
    var mask := OutlierMask(art.ectopic[..], art.short[..], art.long[..], art.extra[..], art.missed[..]);
    if mask.None? {
      return Err(ShapeMismatch);
    }
    ClampSubspaces(art, xlim, ylim);
    r := ScatterView(mask.value, art.ectopic[..], art.short[..], art.long[..], art.extra[..],
                     art.missed[..], art.subspace1[..], art.subspace2[..]);
  }

  // ---------------------------------------------------------------------------
  // Boundary lines of the ectopic wedges

  /** The upper boundary line `f1(x) = -c1*x + c2`. */
  function UpperLine(c1: real, c2: real, x: real): (y: real)
    ensures x == 0.0 ==> y == c2
    ensures y - c2 == -c1 * x
  {
    -c1 * x + c2
  }

  /** The lower boundary line `f2(x) = -c1*x - c2`. */
  function LowerLine(c1: real, c2: real, x: real): (y: real)
    ensures x == 0.0 ==> y == -c2
    ensures y + c2 == -c1 * x
  {
    -c1 * x - c2
  }

  /** The two lines have the same slope and lie `2*c2` apart vertically. */
  lemma LinesParallel(c1: real, c2: real, x: real, x': real)
    ensures UpperLine(c1, c2, x) - LowerLine(c1, c2, x) == 2.0 * c2
    ensures UpperLine(c1, c2, x') - UpperLine(c1, c2, x) == LowerLine(c1, c2, x') - LowerLine(c1, c2, x)
  {
  }

  /** The lower line is the upper line rotated half a turn about the origin. */
  lemma LinesPointSymmetric(c1: real, c2: real, x: real)
    ensures LowerLine(c1, c2, -x) == -UpperLine(c1, c2, x)
  {
  }
}
