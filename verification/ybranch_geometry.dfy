/** The single-edge Y-branch geometry (`YBranchGeometry`): a spline through
    the control values gives the outer edge, a fixed straight ramp from the
    bifurcation point gives the inner "V" edge, and the outline is closed by
    reflecting both about the symmetry axis. */
module YBranchGeometry {
  import opened Sequences
  import opened Spacing
  import opened Interpolation
  import opened Polygon
  import opened Bounds

  /** Overhang of the outer knot set on both sides. */
  const Overhang: real := 0.1 * Micron
  /** Samples along the outer spline. */
  const OuterSamples: nat := 100
  /** Points along the straight inner edge. */
  const InnerSamples: nat := 50
  /** The inner edge ends at this distance from the axis (output-port inner side). */
  const InnerEndY: real := 0.75 * Micron

  /** The knot count `__init__` uses when none is given. */
  const DefaultPoints: nat := 10

  /** What `__init__` stores: the knot positions, the initial control values
      and one bound per control value. */
  datatype Geometry = Geometry(nPoints: nat, knotsX: seq<real>, initialY: seq<real>, bounds: seq<Bound>)

  /** `YBranchGeometry(n_points)`. */
  function NewGeometry(n: nat): (g: Geometry)
    requires n >= 1
    ensures g.nPoints == n && |g.knotsX| == n && |g.initialY| == n && |g.bounds| == n
    ensures StrictlyIncreasing(g.knotsX) && g.knotsX[0] == -Micron
    ensures n >= 2 ==> Last(g.knotsX) == Micron
    ensures n >= 2 ==> forall i :: 0 <= i < n - 1 ==> g.knotsX[i + 1] - g.knotsX[i] == Step(-Micron, Micron, n)
    ensures StrictlyIncreasing(g.initialY)
    ensures n >= 2 ==> forall i :: 0 <= i < n - 1 ==> g.initialY[i + 1] - g.initialY[i] == Step(0.25 * Micron, 1.25 * Micron, n)
    ensures forall i :: 0 <= i < n ==> 0.25 * Micron <= g.initialY[i] <= 1.25 * Micron
    ensures g.initialY[0] == 0.25 * Micron && (n >= 2 ==> Last(g.initialY) == 1.25 * Micron)
    ensures Last(g.bounds) == Bound(1.2 * Micron, 1.3 * Micron)
    ensures n >= 2 ==> g.bounds[0] == Bound(0.24 * Micron, 0.28 * Micron)
    ensures forall i :: 0 < i < n - 1 ==> g.bounds[i] == Bound(0.2 * Micron, 1.5 * Micron)
  {
    Geometry(
      n,
      Linspace(-Micron, Micron, n),
      Linspace(0.25 * Micron, 1.25 * Micron, n),
      PinnedBounds(n, Bound(0.24 * Micron, 0.28 * Micron), Bound(0.2 * Micron, 1.5 * Micron), Bound(1.2 * Micron, 1.3 * Micron)))
  }

  /** With at least two knots the initial shape is a feasible optimizer start. */
  lemma InitialInsideBounds(n: nat)
    requires n >= 2
    ensures WithinBounds(NewGeometry(n).initialY, NewGeometry(n).bounds)
  {
    var g := NewGeometry(n);
    WithinPinnedBounds(g.initialY, Bound(0.24 * Micron, 0.28 * Micron), Bound(0.2 * Micron, 1.5 * Micron), Bound(1.2 * Micron, 1.3 * Micron));
  }

  /** `YBranchGeometry()`: the default geometry has ten knots, is fittable,
      and starts inside its bounds. */
  function DefaultGeometry(): (g: Geometry)
    ensures g.nPoints == DefaultPoints && Fittable(g)
    ensures WithinBounds(g.initialY, g.bounds)
  {
    InitialInsideBounds(DefaultPoints);
    NewGeometry(DefaultPoints)
  }

  /** With one knot the right-end pin overwrites the left-end pin, and the
      single initial value lies outside it. */
  lemma SingleKnotInitialOutside()
    ensures NewGeometry(1).bounds == [Bound(1.2 * Micron, 1.3 * Micron)]
    ensures !WithinBounds(NewGeometry(1).initialY, NewGeometry(1).bounds)
  {
    var g := NewGeometry(1);
    assert g.initialY[0] == 0.25 * Micron;
  }

  /** What `create_polygon` relies on in the stored knots: at least two of
      them, strictly increasing from -1 um to 1 um. */
  predicate Fittable(g: Geometry) {
    && g.nPoints >= 2 && |g.knotsX| == g.nPoints
    && StrictlyIncreasing(g.knotsX) && g.knotsX[0] == -Micron && Last(g.knotsX) == Micron
  }

  /** Every geometry `__init__` builds with two knots or more is fittable. */
  lemma NewGeometryFittable(n: nat)
    requires n >= 2
    ensures Fittable(NewGeometry(n))
  {
  }

  /** `points_x`: the knots with a 0.1 um overhang on both sides, running
      from -1.1 um to 1.1 um in strictly increasing order. */
  function PointsX(g: Geometry): (r: seq<real>)
    requires Fittable(g)
    ensures |r| == g.nPoints + 2
    ensures forall i :: 0 <= i < g.nPoints ==> r[i + 1] == g.knotsX[i]
    ensures StrictlyIncreasing(r)
    ensures r[0] == -1.1 * Micron && Last(r) == 1.1 * Micron
  {
    ExtendKnots(g.knotsX, Overhang, Overhang)
  }

  /** `points_y`: the control values with the first and last repeated once
      outward, so the spline runs flat into the waveguides on both sides. */
  function PointsY(params: seq<real>): (r: seq<real>)
    requires |params| >= 1
    ensures |r| == |params| + 2
    ensures r[0] == params[0] && Last(r) == Last(params)
    ensures forall i :: 0 <= i < |params| ==> r[i + 1] == params[i]
  {
    ExtendValues(params)
  }

  /** The extended data meet the cubic preconditions exactly when the
      geometry has at least two knots; one knot leaves three points. */
  lemma CubicReadyIff(n: nat, params: seq<real>)
    requires n >= 1 && |params| == n
    ensures CubicReady(ExtendKnots(NewGeometry(n).knotsX, Overhang, Overhang), PointsY(params)) <==> n >= 2
  {
    ExtendedReadyIff(NewGeometry(n).knotsX, params, Overhang, Overhang);
  }

  /** `polygon_points_x`: 100 evenly spaced positions from min(points_x) to
      max(points_x), all inside the interpolation range. */
  function OuterXs(g: Geometry): (xs: seq<real>)
    requires Fittable(g)
    ensures |xs| == OuterSamples
    ensures xs[0] == PointsX(g)[0] && Last(xs) == Last(PointsX(g))
    ensures forall i :: 0 <= i < |xs| ==> PointsX(g)[0] <= xs[i] <= Last(PointsX(g))
  {
    var pointsX := PointsX(g);
    MinMaxOfIncreasing(pointsX);
    Linspace(SeqMin(pointsX), SeqMax(pointsX), OuterSamples)
  }

  /** Whatever the knot count, the outer samples are the same 100 evenly
      spaced positions from -1.1 um to 1.1 um. */
  lemma OuterXsFixed(g: Geometry)
    requires Fittable(g)
    ensures OuterXs(g) == Linspace(-1.1 * Micron, 1.1 * Micron, OuterSamples)
  {
    MinMaxOfIncreasing(PointsX(g));
  }

  /** The outer edge: the spline sampled at `OuterXs`, every query inside the
      interpolation domain. */
  function OuterRun(interp: Interpolator, g: Geometry, params: seq<real>): (run: seq<Vertex>)
    requires Admissible(interp)
    requires Fittable(g) && |params| == g.nPoints
    ensures |run| == OuterSamples
    ensures forall i :: 0 <= i < OuterSamples ==> run[i].x == OuterXs(g)[i]
    ensures forall i :: 0 <= i < OuterSamples ==> OnCurve(interp, PointsX(g), PointsY(params), run[i].x, run[i].y)
  {
    var ys := Sample(interp, PointsX(g), PointsY(params), OuterXs(g));
    Zip(OuterXs(g), ys)
  }

  /** `inner_x`: 50 positions from the bifurcation point x = 0 to
      max(points_x), in increasing order. */
  function InnerXs(g: Geometry): (xs: seq<real>)
    requires Fittable(g)
    ensures |xs| == InnerSamples
    ensures xs[0] == 0.0 && Last(xs) == Last(PointsX(g))
    ensures forall i :: 0 <= i < |xs| ==> 0.0 <= xs[i] <= Last(PointsX(g))
    ensures StrictlyIncreasing(xs)
  {
    var pointsX := PointsX(g);
    MinMaxOfIncreasing(pointsX);
    Linspace(0.0, SeqMax(pointsX), InnerSamples)
  }

  /** Whatever the knot count, the inner edge positions are the same 50
      evenly spaced positions from 0 to 1.1 um. */
  lemma InnerXsFixed(g: Geometry)
    requires Fittable(g)
    ensures InnerXs(g) == Linspace(0.0, 1.1 * Micron, InnerSamples)
  {
    MinMaxOfIncreasing(PointsX(g));
  }

  /** The inner edge: 50 points from the bifurcation point (0, 0) to
      (max(points_x), 0.75 um), in order of increasing x. */
  function InnerRun(g: Geometry): (run: seq<Vertex>)
    requires Fittable(g)
    ensures |run| == InnerSamples
    ensures run[0].x == 0.0 && run[0].y == 0.0
    ensures Last(run).x == 1.1 * Micron && Last(run).y == InnerEndY
    ensures forall i :: 0 <= i < InnerSamples ==> 0.0 <= run[i].x <= 1.1 * Micron
    ensures forall i :: 0 <= i < InnerSamples ==> run[i].x == InnerXs(g)[i]
    ensures forall i :: 0 <= i < InnerSamples ==> run[i].y == Linspace(0.0, InnerEndY, InnerSamples)[i]
    ensures StrictlyIncreasing(Xs(run))
  {
    var xs := InnerXs(g);
    ZipXs(xs, Linspace(0.0, InnerEndY, InnerSamples));
    Zip(xs, Linspace(0.0, InnerEndY, InnerSamples))
  }

  /** The inner edge is straight: every point lies on the line through the
      origin with slope 0.75 / 1.1, and none depends on the control values. */
  lemma InnerRunStraight(g: Geometry)
    requires Fittable(g)
    ensures forall i :: 0 <= i < InnerSamples ==> 1.1 * InnerRun(g)[i].y == 0.75 * InnerRun(g)[i].x
  {
    var run, xs, ys := InnerRun(g), InnerXs(g), Linspace(0.0, InnerEndY, InnerSamples);
    InnerXsFixed(g);
    RampOnLine(1.1 * Micron, InnerEndY, InnerSamples);
    forall i | 0 <= i < InnerSamples
      ensures 1.1 * run[i].y == 0.75 * run[i].x
    {
      assert run[i].x == xs[i] && run[i].y == ys[i];
      assert (1.1 * Micron) * ys[i] == InnerEndY * xs[i];
    }
  }

  /** Two ramps from zero with the same number of samples lie on one line
      through the origin: sample `i` of the ramp to `xTop` and sample `i` of
      the ramp to `yTop` are in the ratio `xTop : yTop`. */
  lemma RampOnLine(xTop: real, yTop: real, num: nat)
    requires num >= 2
    ensures forall i :: 0 <= i < num ==> xTop * Linspace(0.0, yTop, num)[i] == yTop * Linspace(0.0, xTop, num)[i]
  {
    forall i | 0 <= i < num
      ensures xTop * Linspace(0.0, yTop, num)[i] == yTop * Linspace(0.0, xTop, num)[i]
    {
      RampSample(xTop, yTop, num, i);
    }
  }

  lemma RampSample(xTop: real, yTop: real, num: nat, i: nat)
    requires num >= 2 && i < num
    ensures xTop * Linspace(0.0, yTop, num)[i] == yTop * Linspace(0.0, xTop, num)[i]
  {
    if i < num - 1 {
      LinspaceSample(0.0, xTop, num, i);
      LinspaceSample(0.0, yTop, num, i);
      ProportionalSteps(xTop, yTop, num, i);
    } else {
      assert xTop * yTop == yTop * xTop;
    }
  }

  /** Before the last-sample overwrite, the two ramps stay in proportion:
      both are `i` steps from zero, and the steps are in the ratio of the tops. */
  lemma ProportionalSteps(xTop: real, yTop: real, num: nat, i: nat)
    requires num >= 2
    ensures xTop * Unrounded(0.0, yTop, num, i) == yTop * Unrounded(0.0, xTop, num, i)
  {
    UnroundedClosedForm(0.0, yTop, num, i);
    UnroundedClosedForm(0.0, xTop, num, i);
    var k, n := (num - 1) as real, i as real;
    calc {
      xTop * Unrounded(0.0, yTop, num, i);
      xTop * (n * (yTop / k));
      n * (xTop * yTop) / k;
      yTop * (n * (xTop / k));
      yTop * Unrounded(0.0, xTop, num, i);
    }
  }

  /** `create_polygon(params)`: the 300-vertex closed outline, symmetric
      about the x-axis, whose outer vertices are spline samples taken inside
      the interpolation domain. */
  function CreatePolygon(interp: Interpolator, g: Geometry, params: seq<real>): (r: seq<Vertex>)
    requires Admissible(interp)
    requires Fittable(g) && |params| == g.nPoints
    ensures |r| == 2 * (OuterSamples + InnerSamples)
    ensures MirrorSymmetric(r)
    ensures r[0].x == -1.1 * Micron && r[OuterSamples - 1].x == 1.1 * Micron
    ensures r[OuterSamples].x == 1.1 * Micron && r[OuterSamples].y == InnerEndY
    ensures r[OuterSamples + InnerSamples - 1].x == 0.0 && r[OuterSamples + InnerSamples - 1].y == 0.0
    ensures r[OuterSamples + InnerSamples].x == 0.0 && r[OuterSamples + InnerSamples].y == 0.0
    ensures forall i :: 0 <= i < OuterSamples ==> OnCurve(interp, PointsX(g), PointsY(params), r[i].x, r[i].y)
  {
    var outer := OuterRun(interp, g, params);
    var r := Assemble(outer, InnerRun(g));
    assert forall i :: 0 <= i < OuterSamples ==> r[i] == outer[i];
    r
  }

  /** The outline splits back into the outer spline run and the inner ramp. */
  lemma CreatePolygonRuns(interp: Interpolator, g: Geometry, params: seq<real>)
    requires Admissible(interp)
    requires Fittable(g) && |params| == g.nPoints
    ensures Disassemble(CreatePolygon(interp, g, params), OuterSamples, InnerSamples)
         == (OuterRun(interp, g, params), InnerRun(g))
  {
    DisassembleAssemble(OuterRun(interp, g, params), InnerRun(g));
  }

  /** The inner edge and its reflection do not depend on the control values
      or on the interpolator. */
  lemma InnerEdgeIgnoresParams(f1: Interpolator, f2: Interpolator, g: Geometry, p1: seq<real>, p2: seq<real>)
    requires Admissible(f1) && Admissible(f2)
    requires Fittable(g) && |p1| == g.nPoints && |p2| == g.nPoints
    ensures CreatePolygon(f1, g, p1)[OuterSamples..OuterSamples + 2 * InnerSamples]
         == CreatePolygon(f2, g, p2)[OuterSamples..OuterSamples + 2 * InnerSamples]
  {
    var a := CreatePolygon(f1, g, p1)[OuterSamples..OuterSamples + 2 * InnerSamples];
    var b := CreatePolygon(f2, g, p2)[OuterSamples..OuterSamples + 2 * InnerSamples];
    forall k | 0 <= k < 2 * InnerSamples
      ensures a[k] == b[k]
    {
      if k >= InnerSamples {
        var v := InnerRun(g)[k - InnerSamples];
        assert a[k].x == v.x && a[k].y == -v.y && b[k].x == v.x && b[k].y == -v.y;
      }
    }
  }

  /** Every vertex of the outline has its reflection in the outline. */
  lemma PolygonSymmetric(interp: Interpolator, g: Geometry, params: seq<real>)
    requires Admissible(interp)
    requires Fittable(g) && |params| == g.nPoints
    ensures forall v :: v in CreatePolygon(interp, g, params) ==> Vertex(v.x, -v.y) in CreatePolygon(interp, g, params)
  {
    SymmetricClosedUnderMirror(CreatePolygon(interp, g, params));
  }

  /** `polygon_points * 1e6` before layout export: metres to micrometres. */
  function ToMicrons(poly: seq<Vertex>): (r: seq<Vertex>)
    ensures |r| == |poly|
  {
    seq(|poly|, i requires 0 <= i < |poly| => Vertex(poly[i].x * 1000000.0, poly[i].y * 1000000.0))
  }

  /** The unit conversion keeps the vertex order: dividing by 1e6 again gives
      back the outline, and its mirror symmetry survives. */
  lemma ToMicronsPreservesShape(poly: seq<Vertex>)
    ensures seq(|poly|, i requires 0 <= i < |poly| => Vertex(ToMicrons(poly)[i].x / 1000000.0, ToMicrons(poly)[i].y / 1000000.0)) == poly
    ensures MirrorSymmetric(poly) ==> MirrorSymmetric(ToMicrons(poly))
  {
    var r := ToMicrons(poly);
    if MirrorSymmetric(poly) {
      forall i, j | 0 <= i < |r| && i + j == |r| - 1
        ensures r[i].x == r[j].x && r[i].y == -r[j].y
      {
        assert poly[i].x == poly[j].x && poly[i].y == -poly[j].y;
      }
    }
  }
}
