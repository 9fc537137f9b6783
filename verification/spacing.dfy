/** numpy's `linspace(start, stop, num)` over exact reals, and the constant
    that turns the source's metre literals into readable ones. */
module Spacing {
  import opened Sequences

  /** One micrometre in metres: the source writes every length as `k * 1e-6`. */
  const Micron: real := 0.000001

  /** The distance between neighbouring samples of `Linspace(start, stop, num)`. */
  function Step(start: real, stop: real, num: nat): real
    requires num >= 2
  {
    (stop - start) / ((num - 1) as real)
  }

  /** Sample `i` before numpy overwrites the last one with `stop`: `i` steps
      on from `start`, written as repeated addition so that callers reason
      about neighbouring samples without multiplication. */
  function Unrounded(start: real, stop: real, num: nat, i: nat): real
    requires num >= 2
  {
    if i == 0 then start else Unrounded(start, stop, num, i - 1) + Step(start, stop, num)
  }

  /** The closed form numpy evaluates: `start + i * step`. */
  lemma {:induction false} UnroundedClosedForm(start: real, stop: real, num: nat, i: nat)
    requires num >= 2
    ensures Unrounded(start, stop, num, i) == start + (i as real) * Step(start, stop, num)
  {
    if i > 0 {
      UnroundedClosedForm(start, stop, num, i - 1);
    }
  }

  /** `numpy.linspace(start, stop, num)` with the endpoint included: no
      samples for `num == 0`, just `start` for `num == 1`, otherwise
      `start + i * step`, with the last sample overwritten by `stop`. */
  function Linspace(start: real, stop: real, num: nat): (r: seq<real>)
    ensures |r| == num
    ensures num >= 1 ==> r[0] == start
    ensures num >= 2 ==> Last(r) == stop
    ensures num >= 2 ==> forall i :: 0 <= i < num - 1 ==> r[i + 1] - r[i] == Step(start, stop, num)
    ensures start <= stop ==> forall i :: 0 <= i < num ==> start <= r[i] <= stop
    ensures start < stop ==> StrictlyIncreasing(r)
  {
    if num == 0 then []
    else if num == 1 then [start]
    else
      var r := seq(num, i requires 0 <= i < num => if i == num - 1 then stop else Unrounded(start, stop, num, i));
      LinspaceShape(start, stop, num, r);
      r
  }

  /** Every sample but the last is `i` steps on from `start`. */
  lemma LinspaceSample(start: real, stop: real, num: nat, i: nat)
    requires num >= 2 && i < num - 1
    ensures Linspace(start, stop, num)[i] == Unrounded(start, stop, num, i)
  {
  }

  /** numpy's closed form: sample `i` (other than the overwritten last one)
      is `start + i * step`. */
  lemma LinspaceClosedForm(start: real, stop: real, num: nat, i: nat)
    requires num >= 2 && i < num - 1
    ensures Linspace(start, stop, num)[i] == start + (i as real) * Step(start, stop, num)
  {
    LinspaceSample(start, stop, num, i);
    UnroundedClosedForm(start, stop, num, i);
  }

  /** The facts `Linspace` promises, proved of its explicit sample list. */
  lemma LinspaceShape(start: real, stop: real, num: nat, r: seq<real>)
    requires num >= 2 && |r| == num
    requires forall i :: 0 <= i < num ==> r[i] == if i == num - 1 then stop else Unrounded(start, stop, num, i)
    ensures forall i :: 0 <= i < num - 1 ==> r[i + 1] - r[i] == Step(start, stop, num)
    ensures start <= stop ==> forall i :: 0 <= i < num ==> start <= r[i] <= stop
    ensures start < stop ==> StrictlyIncreasing(r)
  {
    var step := Step(start, stop, num);
    StepFillsRange(start, stop, num);
    forall i | 0 <= i < num - 1
      ensures r[i + 1] - r[i] == step
    {
      UnroundedNext(start, stop, num, i);
    }
    if start <= stop {
      forall i | 0 <= i < num
        ensures start <= r[i] <= stop
      {
        if i < num - 1 {
          UnroundedWithin(start, stop, num, i);
        }
      }
    }
    if start < stop {
      forall i, j | 0 <= i < j < num
        ensures r[i] < r[j]
      {
        UnroundedBelow(start, stop, num, i, j);
      }
    }
  }

  /** `num - 1` steps cover exactly the range from `start` to `stop`. */
  lemma StepFillsRange(start: real, stop: real, num: nat)
    requires num >= 2
    ensures Unrounded(start, stop, num, num - 1) == stop
  {
    UnroundedClosedForm(start, stop, num, num - 1);
  }

  lemma UnroundedNext(start: real, stop: real, num: nat, i: nat)
    requires num >= 2
    ensures Unrounded(start, stop, num, i + 1) - Unrounded(start, stop, num, i) == Step(start, stop, num)
  {
  }

  lemma UnroundedWithin(start: real, stop: real, num: nat, i: nat)
    requires num >= 2 && start <= stop && i < num
    ensures start <= Unrounded(start, stop, num, i) <= stop
  {
    var step := Step(start, stop, num);
    assert step >= 0.0;
    assert (i as real) * step <= ((num - 1) as real) * step;
    UnroundedClosedForm(start, stop, num, i);
    StepFillsRange(start, stop, num);
  }

  /** With a positive step every earlier sample lies below every later one. */
  lemma UnroundedBelow(start: real, stop: real, num: nat, i: nat, j: nat)
    requires num >= 2 && start < stop && i < j < num
    ensures (if i == num - 1 then stop else Unrounded(start, stop, num, i))
          < (if j == num - 1 then stop else Unrounded(start, stop, num, j))
  {
    var step := Step(start, stop, num);
    assert step > 0.0;
    assert (i as real) * step < (j as real) * step;
    UnroundedClosedForm(start, stop, num, i);
    UnroundedClosedForm(start, stop, num, j);
    StepFillsRange(start, stop, num);
  }
}
