/**
 * The numpy primitives the planner is written with, over exact reals:
 * `np.arange`, first-index `argmax`/`argmin`, `max`, `sum`, and the
 * masked assignment `a[a > bound] = limit`.
 */
module NumpyOps {

  /** Smallest integer not below `x`. */
  function Ceil(x: real): int {
    -((-x).Floor)
  }

  /** Length of `np.arange(start, stop, step)` for a positive step. */
  function ArangeLength(start: real, stop: real, step: real): nat
    requires step > 0.0
  {
    if stop <= start then 0 else Ceil((stop - start) / step)
  }

  /** `np.arange(start, stop, step)`: start, start + step, ... while below stop. */
  function Arange(start: real, stop: real, step: real): (r: seq<real>)
    requires step > 0.0
    ensures |r| == ArangeLength(start, stop, step)
  {
    seq(ArangeLength(start, stop, step), i => start + i as real * step)
  }

  lemma MulLess(a: real, b: real, c: real)
    requires c > 0.0 && a < b
    ensures a * c < b * c
  {
  }

  lemma MulAtLeast(a: real, b: real, c: real)
    requires c > 0.0 && a >= b
    ensures a * c >= b * c
  {
  }

  /**
   * Every element of `np.arange` lies in [start, stop), consecutive elements
   * differ by exactly one step, and one more step would reach stop.
   */
  lemma ArangeSpec(start: real, stop: real, step: real)
    requires step > 0.0
    ensures forall i :: 0 <= i < |Arange(start, stop, step)| ==>
      start <= Arange(start, stop, step)[i] < stop
    ensures forall i :: 0 <= i < |Arange(start, stop, step)| ==>
      Arange(start, stop, step)[i] == start + i as real * step
    ensures start < stop ==> |Arange(start, stop, step)| > 0
    ensures start + |Arange(start, stop, step)| as real * step >= stop
  {
    var r := Arange(start, stop, step);
    if start < stop {
      var q := (stop - start) / step;
      ArangeCount(start, stop, step, q);
      forall i | 0 <= i < |r|
        ensures start <= r[i] < stop
      {
        StepBelow(i, q, step);
      }
    }
  }

  /** `np.arange` takes the fewest steps of `step` that reach `stop`, `q` being the exact quotient. */
  lemma ArangeCount(start: real, stop: real, step: real, q: real)
    requires step > 0.0 && start < stop && q == (stop - start) / step
    ensures q * step == stop - start
    ensures ArangeLength(start, stop, step) as real >= q > 0.0
    ensures start + ArangeLength(start, stop, step) as real * step >= stop
  {
    CeilSpec(q);
    MulAtLeast(ArangeLength(start, stop, step) as real, q, step);
  }

  /** `Ceil(x)` is the smallest integer not below `x`. */
  lemma CeilSpec(x: real)
    ensures Ceil(x) as real >= x && (Ceil(x) - 1) as real < x
  {
  }

  /** An index below `q` steps stays below `q` steps and is nonnegative. */
  lemma StepBelow(i: nat, q: real, step: real)
    requires step > 0.0 && (i as real) < q
    ensures 0.0 <= i as real * step < q * step
  {
    MulLess(i as real, q, step);
  }

  /** `np.arange` with a positive step is strictly increasing. */
  lemma ArangeIncreasing(start: real, stop: real, step: real)
    requires step > 0.0
    ensures forall k, k' :: 0 <= k < k' < |Arange(start, stop, step)| ==>
      Arange(start, stop, step)[k] < Arange(start, stop, step)[k']
  {
    var r := Arange(start, stop, step);
    forall k, k' | 0 <= k < k' < |r|
      ensures r[k] < r[k']
    {
      assert r[k] == start + k as real * step && r[k'] == start + k' as real * step;
      MulLess(k as real, k' as real, step);
    }
  }

  /** Index of the first maximum, as `np.argmax` returns it. */
  function ArgMax(vs: seq<real>): (i: nat)
    requires |vs| > 0
    ensures i < |vs|
    ensures forall j :: 0 <= j < |vs| ==> vs[j] <= vs[i]
    ensures forall j :: 0 <= j < i ==> vs[j] < vs[i]
    decreases |vs|
  {
    if |vs| == 1 then 0
    else
      var b := ArgMax(vs[..|vs| - 1]);
      assert forall j :: 0 <= j < |vs| - 1 ==> vs[..|vs| - 1][j] == vs[j];
      if vs[|vs| - 1] > vs[b] then |vs| - 1 else b
  }

  /** `np.max`: the value at the first maximum. */
  function Max(vs: seq<real>): (m: real)
    requires |vs| > 0
    ensures m in vs
    ensures forall j :: 0 <= j < |vs| ==> vs[j] <= m
  {
    vs[ArgMax(vs)]
  }

  /** Index of the first minimum, as `np.argmin` and Python's `min` with a key return it. */
  function ArgMin(vs: seq<real>): (i: nat)
    requires |vs| > 0
    ensures i < |vs|
    ensures forall j :: 0 <= j < |vs| ==> vs[i] <= vs[j]
    ensures forall j :: 0 <= j < i ==> vs[i] < vs[j]
    decreases |vs|
  {
    if |vs| == 1 then 0
    else
      var b := ArgMin(vs[..|vs| - 1]);
      assert forall j :: 0 <= j < |vs| - 1 ==> vs[..|vs| - 1][j] == vs[j];
      if vs[|vs| - 1] < vs[b] then |vs| - 1 else b
  }

  /** `np.sum`. */
  function Sum(xs: seq<real>): real
    decreases |xs|
  {
    if |xs| == 0 then 0.0 else Sum(xs[..|xs| - 1]) + xs[|xs| - 1]
  }

  /** `(xs * ws).sum()`: elementwise product, then sum. */
  function WeightedSum(xs: seq<real>, ws: seq<real>): real
    requires |xs| == |ws|
  {
    Sum(seq(|xs|, k requires 0 <= k < |xs| => xs[k] * ws[k]))
  }

  /** `np.full(n, c)`. */
  function Full(n: nat, c: real): (r: seq<real>)
    ensures |r| == n && forall k :: 0 <= k < n ==> r[k] == c
  {
    seq(n, _ => c)
  }

  /** `n` equal terms sum to `n` times the term. */
  lemma {:induction false} SumFull(n: nat, c: real)
    ensures Sum(Full(n, c)) == n as real * c
  {
    if n > 0 {
      SumFull(n - 1, c);
      assert Full(n, c)[..n - 1] == Full(n - 1, c);
    }
  }

  /** Sums of nonnegative terms are monotone in the terms. */
  lemma {:induction false} SumMonotone(xs: seq<real>, ys: seq<real>)
    requires |xs| == |ys|
    requires forall k :: 0 <= k < |xs| ==> xs[k] <= ys[k]
    ensures Sum(xs) <= Sum(ys)
    decreases |xs|
  {
    if |xs| > 0 {
      SumMonotone(xs[..|xs| - 1], ys[..|ys| - 1]);
    }
  }

  /** The element rule of the masked assignment `a[a > bound] = limit`. */
  function Overdose(x: real, bound: real, limit: real): real {
    if x > bound then limit else x
  }

  /** `np.nonzero(mask)`: the indices where the mask is set, in increasing order. */
  function Nonzero(mask: seq<bool>): (r: seq<nat>)
    ensures forall j :: 0 <= j < |r| ==> r[j] < |mask| && mask[r[j]]
    ensures forall j, j' :: 0 <= j < j' < |r| ==> r[j] < r[j']
    ensures forall k :: 0 <= k < |mask| && mask[k] ==> k in r
    decreases |mask|
  {
    if |mask| == 0 then []
    else
      var init := Nonzero(mask[..|mask| - 1]);
      assert forall k :: 0 <= k < |mask| - 1 ==> mask[..|mask| - 1][k] == mask[k];
      init + (if mask[|mask| - 1] then [|mask| - 1] else [])
  }

  /** Fancy indexing `xs[idx]`. */
  function Select(xs: seq<real>, idx: seq<nat>): (r: seq<real>)
    requires forall j :: 0 <= j < |idx| ==> idx[j] < |xs|
    ensures |r| == |idx|
    ensures forall j :: 0 <= j < |idx| ==> r[j] == xs[idx[j]]
  {
    seq(|idx|, j requires 0 <= j < |idx| => xs[idx[j]])
  }

  /** Boolean indexing `xs[mask]`: the entries whose mask is set, in their original order. */
  function Masked(xs: seq<real>, mask: seq<bool>): (r: seq<real>)
    requires |mask| == |xs|
    ensures |r| == |Nonzero(mask)|
    ensures forall j :: 0 <= j < |r| ==> r[j] == xs[Nonzero(mask)[j]]
  {
    Select(xs, Nonzero(mask))
  }

  /**
   * The first entry of `np.nonzero` is the least set index and the last entry
   * the greatest, which is what `[[0, -1]]` picks out of a boolean selection.
   */
  lemma NonzeroEnds(mask: seq<bool>)
    requires |Nonzero(mask)| > 0
    ensures forall k :: 0 <= k < Nonzero(mask)[0] ==> !mask[k]
    ensures forall k :: Nonzero(mask)[|Nonzero(mask)| - 1] < k < |mask| ==> !mask[k]
  {
    var r := Nonzero(mask);
    forall k | 0 <= k < r[0]
      ensures !mask[k]
    {
      forall j | 0 <= j < |r|
        ensures r[j] != k
      {
        if j > 0 {
          assert r[0] < r[j];
        }
      }
    }
    forall k | r[|r| - 1] < k < |mask|
      ensures !mask[k]
    {
      forall j | 0 <= j < |r|
        ensures r[j] != k
      {
        if j < |r| - 1 {
          assert r[j] < r[|r| - 1];
        }
      }
    }
  }

  /** `np.mean`. */
  function Mean(xs: seq<real>): real
    requires |xs| > 0
  {
    Sum(xs) / |xs| as real
  }

  /** The absolute value. */
  function Abs(x: real): (r: real)
    ensures r >= 0.0 && (r == x || r == -x)
  {
    if x < 0.0 then -x else x
  }
}
