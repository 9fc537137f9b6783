# Y-branch splitter polygon generator

A Dafny model of the parametric polygon generator of a Y-branch optical power
splitter. A vector of control values (distances of the splitter edge from the
symmetry axis, in metres) becomes a closed 300-vertex outline. The outline is
built from four runs:

1. the outer edge, left to right;
2. the inner "V" edge, right to left;
3. the inner edge reflected about the x-axis, left to right;
4. the outer edge reflected, right to left.

There are two variants.

- The single-edge variant (`YBranchGeometry`, from `y_branch_geometry.py`)
  fits one cubic spline through the control values for the outer edge. The
  inner edge is a fixed straight ramp from the bifurcation point (0, 0) to
  (1.1 um, 0.75 um).
- The dual-edge variant (`YBranchLumopt`, from `splitter_function` in
  `y_branch_lumopt.py`) splits the vector in two. The first half drives an
  outer spline and the second half an inner spline. The module also models
  the optimizer's initial vector and box bounds.

Both variants extend their knot set by one overhang point at each end and
repeat the first and last control value there. The outer edge is sampled at
evenly spaced x-positions across the whole extended range. The inner edge
differs between the variants. In the single-edge variant it is no spline
at all, only a straight ramp. In the dual-edge variant the inner spline is
sampled from x = 0, not from the first extended knot at -0.05 um, up to its
last extended knot.

Modules:

- `Sequences`: `Last`, strict increase, Python's `min()`/`max()` as
  left-to-right scans, and `[::-1]`.
- `Spacing`: numpy's `linspace`, including its `num == 0` and `num == 1`
  cases and the overwrite of the last sample with `stop`. Also the `Micron`
  constant.
- `Interpolation`: the overhang extension of knots and values, and the
  preconditions of scipy's cubic `interp1d`. The interpolator is a
  partial-function parameter (`Interpolator`). The predicate
  `Admissible(f)` promises only that `f` may be called on every query
  meeting those preconditions, so every spline sample is a proof
  obligation that its query is in the domain.
- `Polygon`: vertices, reflection, zipping, and the four-run assembly and
  its inverse.
- `Bounds`: per-parameter `(lo, hi)` intervals with pinned end entries.
- `YBranchGeometry` and `YBranchLumopt`: the two variants.

Lengths are exact reals. The source's `k * 1e-6` literals are written
`k * Micron`.

Three facts about the code shape the model.

- No bounds are checked. A value outside its bound reaches the spline
  unchanged, so the model has no out-of-bounds error.
- The outer block is `len(params) // 2`, so the inner block is the longer
  one when the length is odd. `SplitParams` follows this.
- The code validates no knots. scipy's `interp1d` raises when it gets
  fewer than four data points. The model states that condition as a
  precondition, and an if-and-only-if lemma shows exactly which inputs
  meet it.

## Model

| member | source | states |
|---|---|---|
| Sequences.SeqMin | y_branch_geometry.py:67 | `min()` of a non-empty array is a lower bound of every element |
| Sequences.SeqMax | y_branch_geometry.py:67 | `max()` of a non-empty array is an upper bound of every element |
| Sequences.ExtremaAttained | y_branch_geometry.py:67 | the values `min()` and `max()` return are elements of the array |
| Sequences.MinMaxOfIncreasing | y_branch_geometry.py:53-57 | on a strictly increasing array, `min()` is the first element and `max()` the last |
| Sequences.IncreasingBetweenEnds | y_branch_geometry.py:53-57 | every element of an increasing array lies between its first and last elements |
| Sequences.Reverse | y_branch_geometry.py:92 | `[::-1]` keeps the length and puts element `|s|-1-i` at position `i` |
| Sequences.ReverseInvolution | y_branch_geometry.py:92 | reversing twice gives the original run back |
| Sequences.ReverseAppend | y_branch_geometry.py:92-98 | reversing a concatenation reverses the order of the parts |
| Spacing.Linspace | y_branch_geometry.py:23 | `linspace(start, stop, num)` has `num` samples, starts at `start`, ends at `stop`, has equal steps, stays within `[start, stop]` and strictly increases when `start < stop` |
| Spacing.LinspaceClosedForm | y_branch_geometry.py:23 | every sample but the last is `start + i * step`, the closed form numpy evaluates |
| Spacing.UnroundedClosedForm | y_branch_geometry.py:23 | `i` repeated steps from `start` equal `start + i * step` |
| Spacing.StepFillsRange | y_branch_geometry.py:23 | `num - 1` steps from `start` land exactly on `stop`, so the overwritten last sample is where the progression ends anyway |
| Interpolation.ExtendKnots | y_branch_geometry.py:53-57 | the extended knots are the original knots with one point added at each end; for increasing knots and positive overhangs they strictly increase from `first - left` to `last + right` |
| Interpolation.ExtendValues | y_branch_geometry.py:59-63 | the extended values repeat the first and last control value once outward and keep the middle entries unchanged |
| Interpolation.TrimExtendedValues | y_branch_geometry.py:59-63 | dropping the two added entries gives back the control values; the extension is `[params[0]] + params + [params[-1]]` |
| Interpolation.ExtendedReadyIff | y_branch_geometry.py:53-70 | extended knots and values meet the cubic preconditions if and only if there were at least two knots |
| Interpolation.Sample | y_branch_geometry.py:70-71 | sampling at in-range positions yields one interpolant value per position, each taken at a query the interpolant accepts |
| Polygon.MirrorAll | y_branch_geometry.py:95 | reflection keeps each x and negates each y, vertex by vertex |
| Polygon.MirrorAllAppend | y_branch_geometry.py:95-98 | reflecting a concatenation reflects each part |
| Polygon.MirrorAllReverse | y_branch_geometry.py:98 | reflecting and reversing commute |
| Polygon.Zip | y_branch_geometry.py:89 | `zip(xs, ys)` pairs the i-th x with the i-th y |
| Polygon.ZipXs | y_branch_geometry.py:89 | splitting a zipped run into x and y columns gives back both arrays |
| Polygon.ColumnsZip | y_branch_geometry.py:89 | zipping the x and y columns of a run gives back the run |
| Polygon.Assemble | y_branch_geometry.py:89-105 | the outline has `2 * (outer + inner)` vertices: the outer run, the reversed inner run, the reflected inner run and the reflected, reversed outer run, in that order; vertex `|r|-1-i` is vertex `i` with y negated |
| Polygon.AssembleHalves | y_branch_geometry.py:89-105 | the lower half of the outline is the upper half reversed and reflected |
| Polygon.HalfAndMirrorSymmetric | y_branch_geometry.py:89-105 | any run followed by its reversed reflection is mirror-symmetric |
| Polygon.SymmetricClosedUnderMirror | y_branch_geometry.py:92-105 | in a mirror-symmetric outline every vertex `(x, y)` has `(x, -y)` in the outline too |
| Polygon.DisassembleAssemble | y_branch_geometry.py:89-105 | both upper runs can be read back from the assembled outline, so assembly loses nothing |
| Bounds.PinnedBounds | y_branch_geometry.py:31-37 | `[interior] * n` with index 0 set to the first pin and index -1 then set to the last pin: `n` entries, the last pin at the end, the first pin at the start when `n >= 2`, the interior bound everywhere else |
| Bounds.WithinPinnedBounds | y_branch_geometry.py:31-37 | values that meet both pins and the interior bound lie within the pinned bounds |
| Bounds.WithinBoundsAppend | y_branch_lumopt.py:176-190 | concatenated values lie within concatenated bounds when each block lies within its own |
| YBranchGeometry.NewGeometry | y_branch_geometry.py:13-37 | `n` knots strictly increasing from -1 um to 1 um in equal steps; `n` initial values strictly increasing from 0.25 um to 1.25 um in equal steps; `n` bounds with the pins (0.24, 0.28) um and (1.2, 1.3) um and interior bound (0.2, 1.5) um |
| YBranchGeometry.InitialInsideBounds | y_branch_geometry.py:28-37 | with at least two knots, every initial value lies within its bound |
| YBranchGeometry.SingleKnotInitialOutside | y_branch_geometry.py:31-37 | with one knot the right-end pin overwrites the left-end pin, and the single initial value 0.25 um lies outside it |
| YBranchGeometry.NewGeometryFittable | y_branch_geometry.py:13-23 | a geometry built with at least two knots has the knot layout `create_polygon` needs |
| YBranchGeometry.DefaultGeometry | y_branch_geometry.py:13-37 | `YBranchGeometry()` with the default `n_points=10` has ten knots laid out as `create_polygon` needs, and its initial values lie within their bounds |
| YBranchGeometry.PointsY | y_branch_geometry.py:59-63 | `points_y` has `n + 2` entries, starts with `params[0]`, ends with `params[-1]`, and keeps `params` in the middle |
| YBranchGeometry.PointsX | y_branch_geometry.py:53-57 | `points_x` has `n + 2` entries, runs from -1.1 um to 1.1 um, strictly increases, and keeps the knots in the middle |
| YBranchGeometry.CubicReadyIff | y_branch_geometry.py:53-70 | the cubic interpolator's preconditions hold if and only if `n_points >= 2` |
| YBranchGeometry.OuterXs | y_branch_geometry.py:66-67 | 100 outer sample positions from `min(points_x)` to `max(points_x)`, all inside the interpolation range |
| YBranchGeometry.OuterXsFixed | y_branch_geometry.py:53-67 | whatever the knot count, the outer samples are `linspace(-1.1 um, 1.1 um, 100)` |
| YBranchGeometry.OuterRun | y_branch_geometry.py:66-71 | the outer edge has 100 vertices at the outer sample positions, each on the spline and inside its domain |
| YBranchGeometry.InnerXs | y_branch_geometry.py:77-83 | 50 increasing inner positions from 0 to `max(points_x)` |
| YBranchGeometry.InnerXsFixed | y_branch_geometry.py:77-83 | whatever the knot count, the inner positions are `linspace(0, 1.1 um, 50)` |
| YBranchGeometry.InnerRun | y_branch_geometry.py:77-84 | the inner edge has 50 vertices from (0, 0) to (1.1 um, 0.75 um); vertex `i` sits at the `i`-th of the 50 evenly spaced `inner_x` positions and at the `i`-th of 50 evenly spaced heights, with strictly increasing x |
| YBranchGeometry.InnerRunStraight | y_branch_geometry.py:77-84 | every inner vertex lies on the line through the origin with slope 0.75 / 1.1 |
| YBranchGeometry.RampOnLine | y_branch_geometry.py:83-84 | two `linspace` ramps from 0 with the same sample count are in a fixed ratio, sample by sample |
| YBranchGeometry.ProportionalSteps | y_branch_geometry.py:83-84 | the two ramps stay in proportion at every step before the last-sample overwrite |
| YBranchGeometry.CreatePolygon | y_branch_geometry.py:42-107 | 300 vertices, mirror-symmetric; the outer run spans x = -1.1 um to 1.1 um; the outer/inner seam is at x = 1.1 um with the inner edge at y = 0.75 um; the two inner runs meet at (0, 0); every outer vertex is a spline value taken inside the spline's domain |
| YBranchGeometry.CreatePolygonRuns | y_branch_geometry.py:89-105 | the outline splits back into exactly the outer spline run and the inner ramp |
| YBranchGeometry.InnerEdgeIgnoresParams | y_branch_geometry.py:77-95 | the inner run and its reflection do not depend on the control values or on the interpolator |
| YBranchGeometry.PolygonSymmetric | y_branch_geometry.py:92-105 | every vertex of the outline has its reflection about the x-axis in the outline |
| YBranchGeometry.ToMicrons | y_branch_geometry.py:183 | scaling by 1e6 keeps the vertex count |
| YBranchGeometry.ToMicronsPreservesShape | y_branch_geometry.py:183 | dividing the scaled outline by 1e6 gives back the outline vertex for vertex, so order is kept, and mirror symmetry survives the scaling |
| YBranchLumopt.SplitParams | y_branch_lumopt.py:53-58 | the outer and inner blocks concatenate back to the parameters, and the inner block is as long as the outer or one longer |
| YBranchLumopt.SplitUnique | y_branch_lumopt.py:53-58 | any cut of the parameters into two blocks of those lengths is the split |
| YBranchLumopt.OuterKnots | y_branch_lumopt.py:64 | `outer_x_knots` has `n_outer` strictly increasing, evenly spaced entries within [-1 um, 1 um], from -1 um and, when `n_outer >= 2`, to 1 um |
| YBranchLumopt.InnerKnots | y_branch_lumopt.py:89 | `inner_x_knots` has `n_inner` strictly increasing, evenly spaced entries within [0, 1 um], from 0 and, when `n_inner >= 2`, to 1 um |
| YBranchLumopt.OuterPointsX | y_branch_lumopt.py:64-71 | `points_x_outer` has `n_outer + 2` entries, keeps the knots in the middle, strictly increases, starts at -1.1 um, and ends at 1.1 um when `n_outer >= 2` |
| YBranchLumopt.InnerPointsX | y_branch_lumopt.py:89-96 | `points_x_inner` has `n_inner + 2` entries, keeps the knots in the middle, strictly increases, starts at -0.05 um, and ends at 1.1 um when `n_inner >= 2` |
| YBranchLumopt.BothCubicReadyIff | y_branch_lumopt.py:53-108 | both extended data sets meet the cubic preconditions if and only if `len(params) >= 4` |
| YBranchLumopt.OuterSampleXs | y_branch_lumopt.py:80-81 | 100 outer sample positions from `min(points_x_outer)` to `max(points_x_outer)`, all inside the outer interpolation range |
| YBranchLumopt.InnerSampleXs | y_branch_lumopt.py:104-106 | 50 inner sample positions from 0 to `max(points_x_inner)`, all inside the inner interpolation range and strictly above its first knot |
| YBranchLumopt.SampleRangesFixed | y_branch_lumopt.py:64-106 | whatever the split, the outer samples are `linspace(-1.1 um, 1.1 um, 100)` and the inner samples `linspace(0, 1.1 um, 50)`, so both edges end at x = 1.1 um |
| YBranchLumopt.OuterEdge | y_branch_lumopt.py:80-83 | the outer edge has 100 vertices at the outer sample positions, each on the outer spline and inside its domain |
| YBranchLumopt.InnerEdge | y_branch_lumopt.py:104-108 | the inner edge has 50 vertices at the inner sample positions, each on the inner spline and inside its domain |
| YBranchLumopt.SplitterFunction | y_branch_lumopt.py:38-134 | 300 vertices, mirror-symmetric; the outer run spans x = -1.1 um to 1.1 um; the outer/inner seam is at x = 1.1 um; the two inner runs meet at x = 0 |
| YBranchLumopt.SplitterOuterOnCurve | y_branch_lumopt.py:73-83 | the first 100 vertices are values of the outer spline, built from the first parameter block and taken inside its domain |
| YBranchLumopt.SplitterInnerOnCurve | y_branch_lumopt.py:98-108 | the next 50 vertices are values of the inner spline, built from the second parameter block and taken inside its domain |
| YBranchLumopt.SplitterInnerVertex | y_branch_lumopt.py:104-119 | vertex `k` of the upper inner run, for 100 <= k < 150, is inner-edge sample `149 - k` and a value of the inner spline |
| YBranchLumopt.SplitterRuns | y_branch_lumopt.py:116-132 | the outline splits back into exactly the outer edge of the first block and the inner edge of the second |
| YBranchLumopt.OuterEdgeIgnoresInnerParams | y_branch_lumopt.py:53-83 | changing only the inner block leaves the first 100 vertices unchanged |
| YBranchLumopt.OuterBounds | y_branch_lumopt.py:180-182 | `bounds_outer` has `n_outer` entries: (0.24, 0.26) um first when `n_outer >= 2`, (1.2, 1.3) um last, (0.2, 1.5) um between |
| YBranchLumopt.InnerBounds | y_branch_lumopt.py:186-188 | `bounds_inner` has `n_inner` entries: (-0.05, 0.05) um first when `n_inner >= 2`, (0.7, 0.8) um last, (-0.1, 0.8) um between |
| YBranchLumopt.LumoptBounds | y_branch_lumopt.py:178-190 | `n_outer + n_inner` bounds: the outer block pinned to (0.24, 0.26) um and (1.2, 1.3) um with interior (0.2, 1.5) um, then the inner block pinned to (-0.05, 0.05) um and (0.7, 0.8) um with interior (-0.1, 0.8) um |
| YBranchLumopt.InitialOuter | y_branch_lumopt.py:172 | `initial_outer` has `n_outer` strictly increasing, evenly spaced values within [0.25 um, 1.25 um], from 0.25 um and, when `n_outer >= 2`, to 1.25 um |
| YBranchLumopt.InitialInner | y_branch_lumopt.py:174 | `initial_inner` has `n_inner` strictly increasing, evenly spaced values within [0, 0.75 um], from 0 and, when `n_inner >= 2`, to 0.75 um |
| YBranchLumopt.LumoptInitial | y_branch_lumopt.py:170-176 | the initial vector is the outer ramp followed by the inner ramp: it starts at 0.25 um, the outer block ends at 1.25 um, the inner block starts at 0 and the vector ends at 0.75 um |
| YBranchLumopt.LumoptInitialInsideBounds | y_branch_lumopt.py:170-190 | with at least two points per edge, every initial value lies within its bound |
| YBranchLumopt.LumoptInitialSplits | y_branch_lumopt.py:53-58 | when the inner block is as long as the outer or one longer, the split reads the initial vector back as the two initial ramps |
| YBranchLumopt.OptimizerStart | y_branch_lumopt.py:166-190 | with ten points per edge, 20 initial values and 20 bounds; the start is feasible, and the split gives back the outer and inner ramps |

## Left out

- `y_branch_base_setup.py` is not part of this model. It is calls into the vendor simulation API and has no computable behaviour.
- The cubic spline numerics are left out. scipy's `interp1d` is a function parameter whose only promise is that it may be called inside its preconditions. Nothing is claimed about its values: not that it passes through the knots, and not its smoothness.
- The optimizer run, the solver sessions and the vendor solid creation are left out: `run_lumopt_optimization` beyond lines 166-190, and `add_to_simulation`. They are foreign calls.
- Plotting (`visualize_shape`) and layout-file writing (`export_to_gds`) are left out as I/O. Only the scaling by 1e6 is modelled.
- Floating-point rounding is left out: all lengths are exact reals. numpy's `linspace` is modelled as exact `start + i * step` with the last sample set to `stop`.
- Whether the outline is a simple polygon is left out. It depends on the spline's values, which are not modelled.
- The `__main__` blocks and console output are left out.
- YBranchGeometry.CreatePolygon: requires at least two knots. With one knot, scipy raises on three data points, and `CubicReadyIff` shows that is the exact boundary.
- YBranchLumopt.SplitterFunction: requires at least four parameters. With none or one, `n_outer` is 0 and `outer_x_knots.min()` raises on the empty array (line 68); with two or three, one block has a single knot and scipy rejects the three data points. `BothCubicReadyIff` shows that four is the exact boundary.
- YBranchGeometry.NewGeometry: requires at least one knot. With `n_points = 0`, `self.bounds[0] = …` raises on the empty list (line 35), so there is no geometry to model.
- YBranchGeometry.ToMicrons: its contract states only the vertex count; the per-vertex scaling and order are stated by `ToMicronsPreservesShape`.
