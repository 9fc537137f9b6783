/** The spline side of an edge: the overhang extension of a knot set, the
    preconditions of scipy's cubic `interp1d`, and sampling an interpolant.

    The interpolator itself is foreign numerics and is not modelled: it is a
    partial function parameter whose only promise is that it may be called
    wherever the cubic preconditions hold. Every sample the generator takes
    is therefore a proof obligation that those preconditions are met. */
module Interpolation {
  import opened Sequences

  /** `interp1d(knots, values, kind='cubic')(x)`, as an opaque partial function. */
  type Interpolator = (seq<real>, seq<real>, real) --> real

  /** What a cubic `interp1d` demands of its data: parallel knot and value
      arrays, at least four knots, knots strictly increasing. */
  predicate CubicReady(knots: seq<real>, values: seq<real>) {
    |knots| == |values| && |knots| >= 4 && StrictlyIncreasing(knots)
  }

  /** A query the interpolant answers: ready data, `x` within the knot range
      (the default `bounds_error` rejects anything outside). */
  predicate CubicDomain(knots: seq<real>, values: seq<real>, x: real) {
    CubicReady(knots, values) && knots[0] <= x <= Last(knots)
  }

  /** The interpolator may be called on every query in the cubic domain. */
  ghost predicate Admissible(f: Interpolator) {
    forall knots, values, x {:trigger f.requires(knots, values, x)} ::
      CubicDomain(knots, values, x) ==> f.requires(knots, values, x)
  }

  /** The point `(x, y)` is the interpolant's value at a query it accepts. */
  ghost predicate OnCurve(f: Interpolator, knots: seq<real>, values: seq<real>, x: real, y: real) {
    CubicDomain(knots, values, x) && f.requires(knots, values, x) && y == f(knots, values, x)
  }

  /** Knots with one overhang point on each side: `min - left` before and
      `max + right` after the original knots. */
  function ExtendKnots(knots: seq<real>, left: real, right: real): (r: seq<real>)
    requires |knots| >= 1
    ensures |r| == |knots| + 2
    ensures forall i :: 0 <= i < |knots| ==> r[i + 1] == knots[i]
    ensures StrictlyIncreasing(knots) && left > 0.0 && right > 0.0 ==>
              StrictlyIncreasing(r) && r[0] == knots[0] - left && Last(r) == Last(knots) + right
  {
    var r := [SeqMin(knots) - left] + knots + [SeqMax(knots) + right];
    if StrictlyIncreasing(knots) && left > 0.0 && right > 0.0 then
      MinMaxOfIncreasing(knots);
      OverhangIncreasing(knots, r);
      r
    else r
  }

  /** A point below the first knot and one above the last keep the order strict. */
  lemma OverhangIncreasing(knots: seq<real>, r: seq<real>)
    requires |knots| >= 1 && StrictlyIncreasing(knots)
    requires |r| == |knots| + 2 && forall i :: 0 <= i < |knots| ==> r[i + 1] == knots[i]
    requires r[0] < knots[0] && Last(knots) < Last(r)
    ensures StrictlyIncreasing(r)
  {
    var n := |knots|;
    forall i, j | 0 <= i < j < |r|
      ensures r[i] < r[j]
    {
      if i == 0 && 1 < j <= n {
        assert Ordered(knots[0], knots[j - 1]);
      } else if i == 0 && j == n + 1 && n > 1 {
        assert Ordered(knots[0], Last(knots));
      } else if i >= 1 && j <= n {
        assert Ordered(knots[i - 1], knots[j - 1]);
      } else if 1 <= i < n {
        assert Ordered(knots[i - 1], Last(knots));
      }
    }
  }

  /** Values with the first and last control value repeated once outward, so
      the curve runs flat into the straight waveguides on both sides. */
  function ExtendValues(values: seq<real>): (r: seq<real>)
    requires |values| >= 1
    ensures |r| == |values| + 2
    ensures forall i :: 0 <= i < |values| ==> r[i + 1] == values[i]
    ensures r[0] == r[1] && Last(r) == r[|r| - 2]
  {
    [values[0]] + values + [Last(values)]
  }

  /** Dropping the two overhang points gives back the control values. */
  lemma TrimExtendedValues(values: seq<real>)
    requires |values| >= 1
    ensures ExtendValues(values)[1..|values| + 1] == values
    ensures ExtendValues(values) == [values[0]] + values + [Last(values)]
  {
    var r := ExtendValues(values);
    assert r == [r[0]] + r[1..|values| + 1] + [Last(r)];
  }

  /** Extended knots and values satisfy the cubic preconditions exactly when
      there were at least two original knots. */
  lemma ExtendedReadyIff(knots: seq<real>, values: seq<real>, left: real, right: real)
    requires |knots| == |values| >= 1
    requires StrictlyIncreasing(knots) && left > 0.0 && right > 0.0
    ensures CubicReady(ExtendKnots(knots, left, right), ExtendValues(values)) <==> |knots| >= 2
  {
  }

  /** The interpolant evaluated at each query position. */
  function Sample(f: Interpolator, knots: seq<real>, values: seq<real>, xs: seq<real>): (ys: seq<real>)
    requires Admissible(f) && CubicReady(knots, values)
    requires forall i :: 0 <= i < |xs| ==> knots[0] <= xs[i] <= Last(knots)
    ensures |ys| == |xs|
    ensures forall i :: 0 <= i < |xs| ==> OnCurve(f, knots, values, xs[i], ys[i])
  {
    seq(|xs|, i requires 0 <= i < |xs| => f(knots, values, xs[i]))
  }
}
