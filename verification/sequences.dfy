/** Generic sequence helpers shared by both geometry variants: the last
    element, strict monotonicity, Python's built-in min()/max() over a
    non-empty array, and slice reversal (`s[::-1]`). */
module Sequences {

  function Last<T>(s: seq<T>): T
    requires |s| > 0
  {
    s[|s| - 1]
  }

  /** `a` comes strictly before `b` in the order of the reals. */
  predicate Ordered(a: real, b: real) {
    a < b
  }

  /** Every earlier element is strictly below every later one. The pairwise
      fact is keyed on `Ordered(s[i], s[j])`, so a proof that needs the order
      of two particular elements mentions that term, and the fact does not
      fire on every index term of `s` in sight. */
  predicate StrictlyIncreasing(s: seq<real>) {
    forall i, j {:trigger Ordered(s[i], s[j])} :: 0 <= i < j < |s| ==> Ordered(s[i], s[j])
  }

  /** Python's min() over a non-empty array: a left-to-right scan. The
      value is a lower bound here; `ExtremaAttained` shows it is an element. */
  function SeqMin(s: seq<real>): (m: real)
    requires |s| > 0
    ensures forall i :: 0 <= i < |s| ==> m <= s[i]
  {
    MinOfPrefix(s, |s|)
  }

  /** The smallest of the first `k` elements. */
  function MinOfPrefix(s: seq<real>, k: nat): (m: real)
    requires 0 < k <= |s|
    ensures forall i :: 0 <= i < k ==> m <= s[i]
  {
    if k == 1 then s[0]
    else
      var m := MinOfPrefix(s, k - 1);
      if s[k - 1] < m then s[k - 1] else m
  }

  /** Python's max() over a non-empty array: a left-to-right scan. The
      value is an upper bound here; `ExtremaAttained` shows it is an element. */
  function SeqMax(s: seq<real>): (m: real)
    requires |s| > 0
    ensures forall i :: 0 <= i < |s| ==> s[i] <= m
  {
    MaxOfPrefix(s, |s|)
  }

  /** The largest of the first `k` elements. */
  function MaxOfPrefix(s: seq<real>, k: nat): (m: real)
    requires 0 < k <= |s|
    ensures forall i :: 0 <= i < k ==> s[i] <= m
  {
    if k == 1 then s[0]
    else
      var m := MaxOfPrefix(s, k - 1);
      if s[k - 1] > m then s[k - 1] else m
  }

  /** min() and max() return elements of the array: the scan only ever keeps
      a value it has read. */
  lemma ExtremaAttained(s: seq<real>)
    requires |s| > 0
    ensures SeqMin(s) in s && SeqMax(s) in s
  {
    PrefixExtremaAttained(s, |s|);
  }

  lemma {:induction false} PrefixExtremaAttained(s: seq<real>, k: nat)
    requires 0 < k <= |s|
    ensures exists i :: 0 <= i < k && s[i] == MinOfPrefix(s, k)
    ensures exists i :: 0 <= i < k && s[i] == MaxOfPrefix(s, k)
  {
    if k > 1 {
      PrefixExtremaAttained(s, k - 1);
      if s[k - 1] < MinOfPrefix(s, k - 1) {
        assert s[k - 1] == MinOfPrefix(s, k);
      }
      if s[k - 1] > MaxOfPrefix(s, k - 1) {
        assert s[k - 1] == MaxOfPrefix(s, k);
      }
    } else {
      assert s[0] == MinOfPrefix(s, 1) && s[0] == MaxOfPrefix(s, 1);
    }
  }

  /** In an increasing sequence every element lies between the first and the last. */
  lemma IncreasingBetweenEnds(s: seq<real>)
    requires |s| > 0 && StrictlyIncreasing(s)
    ensures forall i :: 0 <= i < |s| ==> s[0] <= s[i] <= Last(s)
  {
    forall i | 0 <= i < |s|
      ensures s[0] <= s[i] <= Last(s)
    {
      if 0 < i {
        assert Ordered(s[0], s[i]);
      }
      if i < |s| - 1 {
        assert Ordered(s[i], Last(s));
      }
    }
  }

  /** On an increasing sequence min() is the first element and max() the last. */
  lemma MinMaxOfIncreasing(s: seq<real>)
    requires |s| > 0 && StrictlyIncreasing(s)
    ensures SeqMin(s) == s[0]
    ensures SeqMax(s) == Last(s)
  {
    ExtremaAttained(s);
    IncreasingBetweenEnds(s);
  }

  /** The slice `s[::-1]`. */
  function Reverse<T>(s: seq<T>): (r: seq<T>)
    ensures |r| == |s|
    ensures forall i :: 0 <= i < |s| ==> r[i] == s[|s| - 1 - i]
  {
    seq(|s|, i requires 0 <= i < |s| => s[|s| - 1 - i])
  }

  lemma ReverseInvolution<T>(s: seq<T>)
    ensures Reverse(Reverse(s)) == s
  {
  }

  /** Reversing a concatenation reverses the order of the parts. */
  lemma ReverseAppend<T>(a: seq<T>, b: seq<T>)
    ensures Reverse(a + b) == Reverse(b) + Reverse(a)
  {
    var l, r := Reverse(a + b), Reverse(b) + Reverse(a);
    assert |l| == |r|;
    forall i | 0 <= i < |l|
      ensures l[i] == r[i]
    {
      if i < |b| {
        assert l[i] == (a + b)[|a| + |b| - 1 - i] == b[|b| - 1 - i];
      } else {
        assert l[i] == (a + b)[|a| + |b| - 1 - i] == a[|a| - 1 - (i - |b|)];
      }
    }
  }
}
