/** The dual-edge Y-branch geometry (`splitter_function`): the parameter
    vector is split in two, one spline through the first half gives the outer
    edge, one spline through the second half gives the inner "V" edge, and the
    outline is closed by reflecting both about the symmetry axis. Also the
    optimizer's initial vector and box bounds. */
module YBranchLumopt {
  import opened Sequences
  import opened Spacing
  import opened Interpolation
  import opened Polygon
  import opened Bounds

  /** Overhang of the outer knot set on both sides. */
  const OuterOverhang: real := 0.1 * Micron
  /** Overhang of the inner knot set before the bifurcation point. */
  const InnerLeftOverhang: real := 0.05 * Micron
  /** Overhang of the inner knot set past the output side. */
  const InnerRightOverhang: real := 0.1 * Micron
  /** Samples along the outer spline. */
  const OuterSamples: nat := 100
  /** Samples along the inner spline. */
  const InnerSamples: nat := 50

  /** `params[:n_outer], params[n_outer:]` with `n_outer = len(params) // 2`:
      the two halves put back together give the parameters, and the inner
      half is the outer half or one longer. */
  function SplitParams(params: seq<real>): (halves: (seq<real>, seq<real>))
    ensures halves.0 + halves.1 == params
    ensures |halves.0| <= |halves.1| <= |halves.0| + 1
  {
    var nOuter := |params| / 2;
    (params[..nOuter], params[nOuter..])
  }

  /** The split is the only way to cut the parameters into an outer block
      and an inner block of equal length or one longer. */
  lemma SplitUnique(params: seq<real>, outer: seq<real>, inner: seq<real>)
    requires outer + inner == params
    requires |outer| <= |inner| <= |outer| + 1
    ensures SplitParams(params) == (outer, inner)
  {
    var halves := SplitParams(params);
    assert |halves.0| == |outer|;
    assert halves.0 == params[..|outer|] == outer;
    assert halves.1 == params[|outer|..] == inner;
  }

  /** `outer_x_knots`: `n_outer` increasing positions from -1 um to 1 um. */
  function OuterKnots(nOuter: nat): (r: seq<real>)
    ensures |r| == nOuter && StrictlyIncreasing(r)
    ensures nOuter >= 1 ==> r[0] == -Micron
    ensures nOuter >= 2 ==> Last(r) == Micron
    ensures nOuter >= 2 ==> forall i :: 0 <= i < nOuter - 1 ==> r[i + 1] - r[i] == Step(-Micron, Micron, nOuter)
    ensures forall i :: 0 <= i < nOuter ==> -Micron <= r[i] <= Micron
  {
    Linspace(-Micron, Micron, nOuter)
  }

  /** `inner_x_knots`: `n_inner` increasing positions from 0 to 1 um. */
  function InnerKnots(nInner: nat): (r: seq<real>)
    ensures |r| == nInner && StrictlyIncreasing(r)
    ensures nInner >= 1 ==> r[0] == 0.0
    ensures nInner >= 2 ==> Last(r) == Micron
    ensures nInner >= 2 ==> forall i :: 0 <= i < nInner - 1 ==> r[i + 1] - r[i] == Step(0.0, Micron, nInner)
    ensures forall i :: 0 <= i < nInner ==> 0.0 <= r[i] <= Micron
  {
    Linspace(0.0, Micron, nInner)
  }

  /** `points_x_outer`: `n_outer` knots from -1 um to 1 um with a 0.1 um
      overhang on both sides. */
  function OuterPointsX(nOuter: nat): (r: seq<real>)
    requires nOuter >= 1
    ensures |r| == nOuter + 2
    ensures forall i :: 0 <= i < nOuter ==> r[i + 1] == OuterKnots(nOuter)[i]
    ensures StrictlyIncreasing(r)
    ensures r[0] == -1.1 * Micron
    ensures nOuter >= 2 ==> Last(r) == 1.1 * Micron
  {
    ExtendKnots(OuterKnots(nOuter), OuterOverhang, OuterOverhang)
  }

  /** `points_x_inner`: `n_inner` knots from 0 to 1 um with a 0.05 um
      overhang before the bifurcation point and 0.1 um past the output side. */
  function InnerPointsX(nInner: nat): (r: seq<real>)
    requires nInner >= 1
    ensures |r| == nInner + 2
    ensures forall i :: 0 <= i < nInner ==> r[i + 1] == InnerKnots(nInner)[i]
    ensures StrictlyIncreasing(r)
    ensures r[0] == -0.05 * Micron && 0.0 < Last(r)
    ensures nInner >= 2 ==> Last(r) == 1.1 * Micron
  {
    var knots := InnerKnots(nInner);
    ExtendKnots(knots, InnerLeftOverhang, InnerRightOverhang)
  }

  /** Both spline data sets meet the cubic preconditions exactly when there
      are at least four parameters; with two or three, one half has a single
      knot and its extension only three points. */
  lemma BothCubicReadyIff(params: seq<real>)
    requires |params| >= 2
    ensures var (outer, inner) := SplitParams(params);
            (CubicReady(OuterPointsX(|outer|), ExtendValues(outer)) && CubicReady(InnerPointsX(|inner|), ExtendValues(inner)))
            <==> |params| >= 4
  {
  }

  /** `poly_x_outer`: 100 evenly spaced positions from min(points_x_outer) to
      max(points_x_outer), all inside the outer interpolation range. */
  function OuterSampleXs(nOuter: nat): (xs: seq<real>)
    requires nOuter >= 1
    ensures |xs| == OuterSamples
    ensures xs[0] == OuterPointsX(nOuter)[0] && Last(xs) == Last(OuterPointsX(nOuter))
    ensures forall i :: 0 <= i < |xs| ==> OuterPointsX(nOuter)[0] <= xs[i] <= Last(OuterPointsX(nOuter))
  {
    var pointsX := OuterPointsX(nOuter);
    MinMaxOfIncreasing(pointsX);
    Linspace(SeqMin(pointsX), SeqMax(pointsX), OuterSamples)
  }

  /** `poly_x_inner`: 50 evenly spaced positions from the bifurcation point
      x = 0 to max(points_x_inner). The start lies 0.05 um inside the inner
      interpolation range, so every query is in range. */
  function InnerSampleXs(nInner: nat): (xs: seq<real>)
    requires nInner >= 1
    ensures |xs| == InnerSamples
    ensures xs[0] == 0.0 && Last(xs) == Last(InnerPointsX(nInner))
    ensures forall i :: 0 <= i < |xs| ==> InnerPointsX(nInner)[0] < xs[i] <= Last(InnerPointsX(nInner))
  {
    var pointsX := InnerPointsX(nInner);
    MinMaxOfIncreasing(pointsX);
    Linspace(0.0, SeqMax(pointsX), InnerSamples)
  }

  /** Whatever the split, both sample sets end at x = 1.1 um: the outer
      samples run from -1.1 um and the inner ones from 0. */
  lemma SampleRangesFixed(nOuter: nat, nInner: nat)
    requires nOuter >= 2 && nInner >= 2
    ensures OuterSampleXs(nOuter) == Linspace(-1.1 * Micron, 1.1 * Micron, OuterSamples)
    ensures InnerSampleXs(nInner) == Linspace(0.0, 1.1 * Micron, InnerSamples)
  {
    MinMaxOfIncreasing(OuterPointsX(nOuter));
    MinMaxOfIncreasing(InnerPointsX(nInner));
  }

  /** The outer edge: the outer spline sampled at `OuterSampleXs`, every query
      inside the cubic domain. */
  function OuterEdge(interp: Interpolator, paramsOuter: seq<real>): (run: seq<Vertex>)
    requires Admissible(interp) && |paramsOuter| >= 2
    ensures |run| == OuterSamples
    ensures forall i :: 0 <= i < OuterSamples ==> run[i].x == OuterSampleXs(|paramsOuter|)[i]
    ensures forall i :: 0 <= i < OuterSamples ==>
              OnCurve(interp, OuterPointsX(|paramsOuter|), ExtendValues(paramsOuter), run[i].x, run[i].y)
  {
    var n := |paramsOuter|;
    var xs := OuterSampleXs(n);
    Zip(xs, Sample(interp, OuterPointsX(n), ExtendValues(paramsOuter), xs))
  }

  /** The inner edge: the inner spline sampled at `InnerSampleXs`, every query
      inside the cubic domain. */
  function InnerEdge(interp: Interpolator, paramsInner: seq<real>): (run: seq<Vertex>)
    requires Admissible(interp) && |paramsInner| >= 2
    ensures |run| == InnerSamples
    ensures forall i :: 0 <= i < InnerSamples ==> run[i].x == InnerSampleXs(|paramsInner|)[i]
    ensures forall i :: 0 <= i < InnerSamples ==>
              OnCurve(interp, InnerPointsX(|paramsInner|), ExtendValues(paramsInner), run[i].x, run[i].y)
  {
    var n := |paramsInner|;
    var xs := InnerSampleXs(n);
    Zip(xs, Sample(interp, InnerPointsX(n), ExtendValues(paramsInner), xs))
  }

  /** `splitter_function(params)`: the 300-vertex closed outline, symmetric
      about the x-axis, running from x = -1.1 um out to the output side at
      x = 1.1 um, where the outer edge meets the inner edge, and back along
      the inner edge to the bifurcation point at x = 0. */
  function SplitterFunction(interp: Interpolator, params: seq<real>): (r: seq<Vertex>)
    requires Admissible(interp) && |params| >= 4
    ensures |r| == 2 * (OuterSamples + InnerSamples)
    ensures MirrorSymmetric(r)
    ensures r[0].x == -1.1 * Micron
    ensures r[OuterSamples - 1].x == 1.1 * Micron && r[OuterSamples].x == 1.1 * Micron
    ensures r[OuterSamples + InnerSamples - 1].x == 0.0 && r[OuterSamples + InnerSamples].x == 0.0
  {
    var (paramsOuter, paramsInner) := SplitParams(params);
    Assemble(OuterEdge(interp, paramsOuter), InnerEdge(interp, paramsInner))
  }

  /** The first 100 vertices are values of the outer spline, through the
      first half of the parameters, each taken inside the spline's domain. */
  lemma SplitterOuterOnCurve(interp: Interpolator, params: seq<real>)
    requires Admissible(interp) && |params| >= 4
    ensures var r := SplitterFunction(interp, params);
            forall i :: 0 <= i < OuterSamples ==>
              OnCurve(interp, OuterPointsX(|params| / 2), ExtendValues(SplitParams(params).0), r[i].x, r[i].y)
  {
    var (paramsOuter, paramsInner) := SplitParams(params);
    var outer := OuterEdge(interp, paramsOuter);
    var r := SplitterFunction(interp, params);
    assert forall i :: 0 <= i < OuterSamples ==> r[i] == outer[i];
  }

  /** The next 50 vertices are values of the inner spline, through the
      second half of the parameters, each taken inside the spline's domain. */
  lemma SplitterInnerOnCurve(interp: Interpolator, params: seq<real>)
    requires Admissible(interp) && |params| >= 4
    ensures var r := SplitterFunction(interp, params);
            forall k :: OuterSamples <= k < OuterSamples + InnerSamples ==>
              OnCurve(interp, InnerPointsX(|params| - |params| / 2), ExtendValues(SplitParams(params).1), r[k].x, r[k].y)
  {
    forall k | OuterSamples <= k < OuterSamples + InnerSamples {
      SplitterInnerVertex(interp, params, k);
    }
  }

  /** Vertex `k` of the upper inner run is inner-edge sample `149 - k`, and
      so a value of the inner spline. */
  lemma SplitterInnerVertex(interp: Interpolator, params: seq<real>, k: nat)
    requires Admissible(interp) && |params| >= 4
    requires OuterSamples <= k < OuterSamples + InnerSamples
    ensures SplitterFunction(interp, params)[k] == InnerEdge(interp, SplitParams(params).1)[OuterSamples + InnerSamples - 1 - k]
    ensures var v := SplitterFunction(interp, params)[k];
            OnCurve(interp, InnerPointsX(|params| - |params| / 2), ExtendValues(SplitParams(params).1), v.x, v.y)
  {
    var (paramsOuter, paramsInner) := SplitParams(params);
    var inner := InnerEdge(interp, paramsInner);
    var j := OuterSamples + InnerSamples - 1 - k;
    AssembleUpperInner(OuterEdge(interp, paramsOuter), inner, k);
    assert |paramsInner| == |params| - |params| / 2;
    assert OnCurve(interp, InnerPointsX(|paramsInner|), ExtendValues(paramsInner), inner[j].x, inner[j].y);
  }

  /** The outline splits back into the outer and the inner spline runs. */
  lemma SplitterRuns(interp: Interpolator, params: seq<real>)
    requires Admissible(interp) && |params| >= 4
    ensures Disassemble(SplitterFunction(interp, params), OuterSamples, InnerSamples)
         == (OuterEdge(interp, SplitParams(params).0), InnerEdge(interp, SplitParams(params).1))
  {
    var (paramsOuter, paramsInner) := SplitParams(params);
    DisassembleAssemble(OuterEdge(interp, paramsOuter), InnerEdge(interp, paramsInner));
  }

  /** The outer edge depends only on the first half of the parameters: changing
      the inner half leaves the first 100 vertices alone. */
  lemma OuterEdgeIgnoresInnerParams(interp: Interpolator, paramsOuter: seq<real>, inner1: seq<real>, inner2: seq<real>)
    requires Admissible(interp) && |paramsOuter| >= 2
    requires |inner1| == |inner2| && |paramsOuter| <= |inner1| <= |paramsOuter| + 1
    ensures SplitterFunction(interp, paramsOuter + inner1)[..OuterSamples]
         == SplitterFunction(interp, paramsOuter + inner2)[..OuterSamples]
  {
    SplitUnique(paramsOuter + inner1, paramsOuter, inner1);
    SplitUnique(paramsOuter + inner2, paramsOuter, inner2);
    SplitterRuns(interp, paramsOuter + inner1);
    SplitterRuns(interp, paramsOuter + inner2);
  }

  /** `bounds_outer + bounds_inner`: each block pinned at both ends, the outer
      block to the input and outer-output port intervals, the inner block to
      the bifurcation point and the inner-output interval. */
  function LumoptBounds(nOuter: nat, nInner: nat): (b: seq<Bound>)
    requires nOuter >= 1 && nInner >= 1
    ensures |b| == nOuter + nInner
    ensures nOuter >= 2 ==> b[0] == Bound(0.24 * Micron, 0.26 * Micron)
    ensures b[nOuter - 1] == Bound(1.2 * Micron, 1.3 * Micron)
    ensures forall i :: 0 < i < nOuter - 1 ==> b[i] == Bound(0.2 * Micron, 1.5 * Micron)
    ensures nInner >= 2 ==> b[nOuter] == Bound(-0.05 * Micron, 0.05 * Micron)
    ensures Last(b) == Bound(0.7 * Micron, 0.8 * Micron)
    ensures forall i :: nOuter < i < nOuter + nInner - 1 ==> b[i] == Bound(-0.1 * Micron, 0.8 * Micron)
  {
    OuterBounds(nOuter) + InnerBounds(nInner)
  }

  /** `bounds_outer`: the input pin first, the outer-output pin last, the
      interior bound between. */
  function OuterBounds(nOuter: nat): (b: seq<Bound>)
    requires nOuter >= 1
    ensures |b| == nOuter
    ensures nOuter >= 2 ==> b[0] == Bound(0.24 * Micron, 0.26 * Micron)
    ensures Last(b) == Bound(1.2 * Micron, 1.3 * Micron)
    ensures forall i :: 0 < i < nOuter - 1 ==> b[i] == Bound(0.2 * Micron, 1.5 * Micron)
  {
    PinnedBounds(nOuter, Bound(0.24 * Micron, 0.26 * Micron), Bound(0.2 * Micron, 1.5 * Micron), Bound(1.2 * Micron, 1.3 * Micron))
  }

  /** `bounds_inner`: the bifurcation-point pin first, the inner-output pin
      last, the interior bound between. */
  function InnerBounds(nInner: nat): (b: seq<Bound>)
    requires nInner >= 1
    ensures |b| == nInner
    ensures nInner >= 2 ==> b[0] == Bound(-0.05 * Micron, 0.05 * Micron)
    ensures Last(b) == Bound(0.7 * Micron, 0.8 * Micron)
    ensures forall i :: 0 < i < nInner - 1 ==> b[i] == Bound(-0.1 * Micron, 0.8 * Micron)
  {
    PinnedBounds(nInner, Bound(-0.05 * Micron, 0.05 * Micron), Bound(-0.1 * Micron, 0.8 * Micron), Bound(0.7 * Micron, 0.8 * Micron))
  }

  /** `initial_outer`: the outer edge widening linearly from 0.25 um to 1.25 um. */
  function InitialOuter(nOuter: nat): (r: seq<real>)
    ensures |r| == nOuter
    ensures nOuter >= 1 ==> r[0] == 0.25 * Micron
    ensures nOuter >= 2 ==> Last(r) == 1.25 * Micron
    ensures forall i :: 0 <= i < nOuter ==> 0.25 * Micron <= r[i] <= 1.25 * Micron
    ensures StrictlyIncreasing(r)
    ensures nOuter >= 2 ==> forall i :: 0 <= i < nOuter - 1 ==> r[i + 1] - r[i] == Step(0.25 * Micron, 1.25 * Micron, nOuter)
  {
    Linspace(0.25 * Micron, 1.25 * Micron, nOuter)
  }

  /** `initial_inner`: the inner edge opening linearly from 0 to 0.75 um. */
  function InitialInner(nInner: nat): (r: seq<real>)
    ensures |r| == nInner
    ensures nInner >= 1 ==> r[0] == 0.0
    ensures nInner >= 2 ==> Last(r) == 0.75 * Micron
    ensures forall i :: 0 <= i < nInner ==> 0.0 <= r[i] <= 0.75 * Micron
    ensures StrictlyIncreasing(r)
    ensures nInner >= 2 ==> forall i :: 0 <= i < nInner - 1 ==> r[i + 1] - r[i] == Step(0.0, 0.75 * Micron, nInner)
  {
    Linspace(0.0, 0.75 * Micron, nInner)
  }

  /** `np.concatenate([initial_outer, initial_inner])`. */
  function LumoptInitial(nOuter: nat, nInner: nat): (p: seq<real>)
    ensures |p| == nOuter + nInner
    ensures p[..nOuter] == InitialOuter(nOuter) && p[nOuter..] == InitialInner(nInner)
    ensures nOuter >= 1 ==> p[0] == 0.25 * Micron
    ensures nOuter >= 2 ==> p[nOuter - 1] == 1.25 * Micron
    ensures nInner >= 1 ==> p[nOuter] == 0.0
    ensures nInner >= 2 ==> Last(p) == 0.75 * Micron
  {
    InitialOuter(nOuter) + InitialInner(nInner)
  }

  /** With at least two points per edge the initial vector is a feasible
      optimizer start: every value lies within its bound. */
  lemma LumoptInitialInsideBounds(nOuter: nat, nInner: nat)
    requires nOuter >= 2 && nInner >= 2
    ensures WithinBounds(LumoptInitial(nOuter, nInner), LumoptBounds(nOuter, nInner))
  {
    var outer, inner := InitialOuter(nOuter), InitialInner(nInner);
    WithinPinnedBounds(outer, Bound(0.24 * Micron, 0.26 * Micron), Bound(0.2 * Micron, 1.5 * Micron), Bound(1.2 * Micron, 1.3 * Micron));
    WithinPinnedBounds(inner, Bound(-0.05 * Micron, 0.05 * Micron), Bound(-0.1 * Micron, 0.8 * Micron), Bound(0.7 * Micron, 0.8 * Micron));
    WithinBoundsAppend(outer, OuterBounds(nOuter), inner, InnerBounds(nInner));
  }

  /** When the inner block is as long as the outer one or one longer, the
      splitter reads the initial vector back as the two initial edges. */
  lemma LumoptInitialSplits(nOuter: nat, nInner: nat)
    requires nOuter <= nInner <= nOuter + 1
    ensures SplitParams(LumoptInitial(nOuter, nInner)) == (InitialOuter(nOuter), InitialInner(nInner))
  {
    SplitUnique(LumoptInitial(nOuter, nInner), InitialOuter(nOuter), InitialInner(nInner));
  }

  /** Ten control points per edge, as the optimization run sets up. */
  const PointsPerEdge: nat := 10

  /** The optimization run's start: twenty initial values and twenty bounds,
      the start feasible, and the first ten values read back by the splitter
      as the outer edge and the last ten as the inner edge. */
  function OptimizerStart(): (start: (seq<real>, seq<Bound>))
    ensures |start.0| == 20 && |start.1| == 20
    ensures WithinBounds(start.0, start.1)
    ensures SplitParams(start.0) == (InitialOuter(PointsPerEdge), InitialInner(PointsPerEdge))
  {
    LumoptInitialInsideBounds(PointsPerEdge, PointsPerEdge);
    LumoptInitialSplits(PointsPerEdge, PointsPerEdge);
    (LumoptInitial(PointsPerEdge, PointsPerEdge), LumoptBounds(PointsPerEdge, PointsPerEdge))
  }
}
