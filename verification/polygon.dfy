/** Vertices, reflection about the x-axis, and the four-run assembly of the
    closed splitter outline that both geometry variants share. */
module Polygon {
  import opened Sequences

  /** One polygon vertex, in metres. */
  datatype Vertex = Vertex(x: real, y: real)

  /** `[(x, -y) for x, y in run]`: every vertex reflected about the
      symmetry axis. */
  function MirrorAll(run: seq<Vertex>): (r: seq<Vertex>)
    ensures |r| == |run|
    ensures forall i :: 0 <= i < |run| ==> r[i].x == run[i].x && r[i].y == -run[i].y
  {
    seq(|run|, i requires 0 <= i < |run| => Vertex(run[i].x, -run[i].y))
  }

  lemma MirrorAllAppend(a: seq<Vertex>, b: seq<Vertex>)
    ensures MirrorAll(a + b) == MirrorAll(a) + MirrorAll(b)
  {
  }

  lemma MirrorAllReverse(a: seq<Vertex>)
    ensures MirrorAll(Reverse(a)) == Reverse(MirrorAll(a))
  {
  }

  /** `list(zip(xs, ys))` for two arrays of the same length. */
  function Zip(xs: seq<real>, ys: seq<real>): (r: seq<Vertex>)
    requires |xs| == |ys|
    ensures |r| == |xs|
    ensures forall i :: 0 <= i < |xs| ==> r[i].x == xs[i] && r[i].y == ys[i]
  {
    seq(|xs|, i requires 0 <= i < |xs| => Vertex(xs[i], ys[i]))
  }

  /** The x column of a run, `points[:, 0]`. */
  function Xs(run: seq<Vertex>): (r: seq<real>)
    ensures |r| == |run|
  {
    seq(|run|, i requires 0 <= i < |run| => run[i].x)
  }

  /** The y column of a run, `points[:, 1]`. */
  function Ys(run: seq<Vertex>): (r: seq<real>)
    ensures |r| == |run|
  {
    seq(|run|, i requires 0 <= i < |run| => run[i].y)
  }

  /** Taking the columns of a zipped run gives back both input arrays. */
  lemma ZipXs(xs: seq<real>, ys: seq<real>)
    requires |xs| == |ys|
    ensures Xs(Zip(xs, ys)) == xs && Ys(Zip(xs, ys)) == ys
  {
  }

  /** Zipping the two columns of a run gives back the run. */
  lemma ColumnsZip(run: seq<Vertex>)
    ensures Zip(Xs(run), Ys(run)) == run
  {
  }

  /** A vertex list whose vertex `j = |s| - 1 - i` is the reflection of
      vertex `i`: walking the loop from either end visits mirror images. */
  predicate MirrorSymmetric(s: seq<Vertex>) {
    forall i, j :: 0 <= i < |s| && i + j == |s| - 1 ==> s[i].x == s[j].x && s[i].y == -s[j].y
  }

  /** The closed outline: the outer run left to right, the inner run right to
      left, the mirrored inner run left to right, and the mirrored outer run
      right to left. Each run is described from the outline's side (what
      vertex `k` of the outline is), so that a fact about a vertex of a run
      never asks for another vertex of the outline. */
  function Assemble(outer: seq<Vertex>, inner: seq<Vertex>): (r: seq<Vertex>)
    ensures |r| == 2 * (|outer| + |inner|)
    ensures forall k {:trigger r[k]} :: 0 <= k < |outer| ==> r[k] == outer[k]
    ensures forall k :: |outer| <= k < |outer| + |inner| ==> r[k] == inner[|outer| + |inner| - 1 - k]
    ensures forall k :: |outer| + |inner| <= k < |outer| + 2 * |inner| ==> r[k].x == inner[k - |outer| - |inner|].x && r[k].y == -inner[k - |outer| - |inner|].y
    ensures forall k :: |outer| + 2 * |inner| <= k < |r| ==> r[k].x == outer[|r| - 1 - k].x && r[k].y == -outer[|r| - 1 - k].y
    ensures MirrorSymmetric(r)
  {
    var upperOuter := outer;
    var upperInner := Reverse(inner);
    var lowerInner := MirrorAll(inner);
    var lowerOuter := MirrorAll(Reverse(outer));
    var r := upperOuter + upperInner + lowerInner + lowerOuter;
    AssembleHalves(outer, inner);
    HalfAndMirrorSymmetric(outer + Reverse(inner));
    r
  }

  /** Vertex `k` of the reversed inner run of the outline is inner vertex
      `|outer| + |inner| - 1 - k`. */
  lemma AssembleUpperInner(outer: seq<Vertex>, inner: seq<Vertex>, k: nat)
    requires |outer| <= k < |outer| + |inner|
    ensures Assemble(outer, inner)[k] == inner[|outer| + |inner| - 1 - k]
  {
  }

  /** The lower half of the outline is the upper half reflected and reversed. */
  lemma AssembleHalves(outer: seq<Vertex>, inner: seq<Vertex>)
    ensures outer + Reverse(inner) + MirrorAll(inner) + MirrorAll(Reverse(outer))
         == (outer + Reverse(inner)) + MirrorAll(Reverse(outer + Reverse(inner)))
  {
    ReverseAppend(outer, Reverse(inner));
    ReverseInvolution(inner);
    MirrorAllAppend(inner, Reverse(outer));
  }

  /** Any half followed by its reversed reflection is mirror-symmetric. */
  lemma HalfAndMirrorSymmetric(half: seq<Vertex>)
    ensures MirrorSymmetric(half + MirrorAll(Reverse(half)))
  {
    var s := half + MirrorAll(Reverse(half));
    var n := |half|;
    forall i, j | 0 <= i < |s| && i + j == |s| - 1
      ensures s[i].x == s[j].x && s[i].y == -s[j].y
    {
      if i < n {
        assert s[j].y == -Reverse(half)[j - n].y;
      } else {
        assert s[i].y == -Reverse(half)[i - n].y;
      }
    }
  }

  /** Every vertex of a mirror-symmetric outline has its reflection in it. */
  lemma SymmetricClosedUnderMirror(s: seq<Vertex>)
    requires MirrorSymmetric(s)
    ensures forall v :: v in s ==> Vertex(v.x, -v.y) in s
  {
    forall v | v in s
      ensures Vertex(v.x, -v.y) in s
    {
      var i :| 0 <= i < |s| && s[i] == v;
      var j := |s| - 1 - i;
      assert s[i].x == s[j].x && s[i].y == -s[j].y;
      assert s[j] == Vertex(v.x, -v.y);
    }
  }

  /** Recover the two upper runs, in their original order, from an outline. */
  function Disassemble(r: seq<Vertex>, nOuter: nat, nInner: nat): (runs: (seq<Vertex>, seq<Vertex>))
    requires |r| == 2 * (nOuter + nInner)
    ensures |runs.0| == nOuter && |runs.1| == nInner
  {
    (r[..nOuter], Reverse(r[nOuter..nOuter + nInner]))
  }

  /** Assembly loses nothing: both edge runs can be read back from the outline. */
  lemma DisassembleAssemble(outer: seq<Vertex>, inner: seq<Vertex>)
    ensures Disassemble(Assemble(outer, inner), |outer|, |inner|) == (outer, inner)
  {
    var r := Assemble(outer, inner);
    var runs := Disassemble(r, |outer|, |inner|);
    assert runs.0 == outer;
    assert runs.1 == inner;
  }
}
