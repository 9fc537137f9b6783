/** Optimizer box bounds: one closed interval per control value, with the
    first and last control value pinned to narrow port intervals. */
module Bounds {
  import opened Sequences

  /** A `(lo, hi)` pair as handed to L-BFGS-B. */
  datatype Bound = Bound(lo: real, hi: real)

  predicate Inside(v: real, b: Bound) {
    b.lo <= v <= b.hi
  }

  /** Each value lies in the bound at its own index. */
  predicate WithinBounds(values: seq<real>, bounds: seq<Bound>) {
    |values| == |bounds| && forall i :: 0 <= i < |values| ==> Inside(values[i], bounds[i])
  }

  /** `b = [interior] * n; b[0] = first; b[-1] = last`. The two writes go to
      the same slot when `n == 1`, and the later one wins. */
  function PinnedBounds(n: nat, first: Bound, interior: Bound, last: Bound): (r: seq<Bound>)
    requires n >= 1
    ensures |r| == n
    ensures Last(r) == last
    ensures n >= 2 ==> r[0] == first
    ensures forall i :: 0 < i < n - 1 ==> r[i] == interior
  {
    var b := seq(n, _ => interior);
    b[0 := first][n - 1 := last]
  }

  /** Values that meet the port pins at both ends and the interior bound in
      between lie within the pinned bounds. */
  lemma WithinPinnedBounds(values: seq<real>, first: Bound, interior: Bound, last: Bound)
    requires |values| >= 2
    requires Inside(values[0], first) && Inside(Last(values), last)
    requires forall i :: 0 < i < |values| - 1 ==> Inside(values[i], interior)
    ensures WithinBounds(values, PinnedBounds(|values|, first, interior, last))
  {
    var b := PinnedBounds(|values|, first, interior, last);
    forall i | 0 <= i < |values|
      ensures Inside(values[i], b[i])
    {
      if 0 < i < |values| - 1 {
        assert b[i] == interior;
      }
    }
  }

  /** Bounds of two concatenated parameter blocks are met block by block. */
  lemma WithinBoundsAppend(a: seq<real>, ba: seq<Bound>, b: seq<real>, bb: seq<Bound>)
    requires WithinBounds(a, ba) && WithinBounds(b, bb)
    ensures WithinBounds(a + b, ba + bb)
  {
    forall i | 0 <= i < |a| + |b|
      ensures Inside((a + b)[i], (ba + bb)[i])
    {
      if i >= |a| {
        assert (a + b)[i] == b[i - |a|] && (ba + bb)[i] == bb[i - |a|];
      }
    }
  }
}
