/**
 * The discretisation used by the five-fraction tumour x OAR planner: the
 * sparing-factor bins and their probabilities, the threshold filter, the
 * BED state grids with their two overflow sentinels, the fixed action space
 * and the overdose clamp applied to projected states.
 */
module Grids3D {
  import opened NumpyOps

  /** The sparing-factor bin centres `np.arange(0.01, 1.31, 0.01)`. */
  function SfGrid(): (g: seq<real>)
    ensures |g| == 130
  {
    ArangeSpec(0.01, 1.31, 0.01);
    Arange(0.01, 1.31, 0.01)
  }

  /** The bin centres are 0.01 apart, starting at 0.01. */
  lemma SfGridValues()
    ensures forall k :: 0 <= k < 130 ==> SfGrid()[k] == 0.01 + k as real * 0.01
  {
    ArangeSpec(0.01, 1.31, 0.01);
  }

  /** Every bin centre is a positive sparing factor, at most 1.3. */
  lemma SfGridPositive()
    ensures forall k :: 0 <= k < 130 ==> 0.0 < SfGrid()[k] <= 1.3
  {
    SfGridValues();
  }

  /** Probability mass of the bin of width 0.01 centred on `x`, from a CDF. */
  function BinMass(cdf: real -> real, x: real): real {
    cdf(x + 0.005) - cdf(x - 0.005)
  }

  /** The bin masses `probdist` produces, one per bin centre. */
  function Masses(cdf: real -> real): (ms: seq<real>)
    ensures |ms| == 130
  {
    seq(130, k requires 0 <= k < 130 => BinMass(cdf, SfGrid()[k]))
  }

  /** `probdist`: fills a 130-entry buffer with the bin masses, walking the bin centres with a counter. */
  method ProbDist(cdf: real -> real) returns (prob: array<real>)
    ensures fresh(prob)
    ensures prob[..] == Masses(cdf)
  {
    prob := new real[130];
    var centres := SfGrid();
    var idx := 0;
    for n := 0 to |centres|
      invariant idx == n
      invariant forall k :: 0 <= k < idx ==> prob[k] == BinMass(cdf, centres[k])
    {
      var i := centres[n];
      prob[idx] := cdf(i + 0.005) - cdf(i - 0.005);
      idx := idx + 1;
    }
    MassesPointwise(cdf, prob[..]);
  }

  /** A sequence holding every bin mass at its bin's position is `Masses`. */
  lemma MassesPointwise(cdf: real -> real, s: seq<real>)
    requires |s| == 130 && forall k :: 0 <= k < 130 ==> s[k] == BinMass(cdf, SfGrid()[k])
    ensures s == Masses(cdf)
  {
  }

  /**
   * The bins tile [0.005, 1.305] without gaps: the first `n` masses add up to
   * the CDF increase over the first `n` bins.
   */
  lemma {:induction false} MassesTelescope(cdf: real -> real, n: nat)
    requires n <= 130
    ensures Sum(Masses(cdf)[..n]) == cdf(0.005 + n as real * 0.01) - cdf(0.005)
  {
    if n > 0 {
      MassesTelescope(cdf, n - 1);
      SfGridValues();
      assert Masses(cdf)[..n][..n - 1] == Masses(cdf)[..n - 1];
      assert Masses(cdf)[..n][n - 1] == BinMass(cdf, 0.01 + (n - 1) as real * 0.01);
    }
  }

  /** With a nondecreasing CDF every bin mass is nonnegative. */
  lemma MassesNonNegative(cdf: real -> real)
    requires forall x, y :: x <= y ==> cdf(x) <= cdf(y)
    ensures forall k :: 0 <= k < 130 ==> Masses(cdf)[k] >= 0.0
  {
    forall k | 0 <= k < 130
      ensures Masses(cdf)[k] >= 0.0
    {
      var x := SfGrid()[k];
      assert x - 0.005 <= x + 0.005;
    }
  }

  /** Bins whose probability is at most this are discarded. */
  const ProbThreshold: real := 0.00001

  /** The mask `prob > 0.00001`. */
  function KeepMask(prob: seq<real>): (m: seq<bool>)
    ensures |m| == |prob|
    ensures forall k :: 0 <= k < |prob| ==> (m[k] <==> prob[k] > ProbThreshold)
  {
    seq(|prob|, k requires 0 <= k < |prob| => prob[k] > ProbThreshold)
  }

  /** `sf[prob > 0.00001]`. */
  function KeptSf(prob: seq<real>): seq<real>
    requires |prob| == 130
  {
    Masked(SfGrid(), KeepMask(prob))
  }

  /** `prob[prob > 0.00001]`. */
  function KeptProb(prob: seq<real>): seq<real>
  {
    Masked(prob, KeepMask(prob))
  }

  /**
   * The filter keeps the sparing factors and their probabilities aligned and in
   * bin order, keeps exactly the bins above the threshold, and does not
   * renormalise what it keeps.
   */
  lemma FilterSpec(prob: seq<real>)
    requires |prob| == 130
    ensures |KeptSf(prob)| == |KeptProb(prob)|
    ensures forall j :: 0 <= j < |KeptProb(prob)| ==> KeptProb(prob)[j] > ProbThreshold
    ensures forall j :: 0 <= j < |KeptProb(prob)| ==>
      exists k :: 0 <= k < 130 && KeptSf(prob)[j] == SfGrid()[k] && KeptProb(prob)[j] == prob[k]
    ensures forall j, j' :: 0 <= j < j' < |KeptSf(prob)| ==> KeptSf(prob)[j] < KeptSf(prob)[j']
    ensures forall k :: 0 <= k < 130 && prob[k] > ProbThreshold ==>
      exists j :: 0 <= j < |KeptSf(prob)| && KeptSf(prob)[j] == SfGrid()[k] && KeptProb(prob)[j] == prob[k]
  {
    var idx := Nonzero(KeepMask(prob));
    forall j | 0 <= j < |idx|
      ensures exists k :: 0 <= k < 130 && KeptSf(prob)[j] == SfGrid()[k] && KeptProb(prob)[j] == prob[k]
    {
      var k := idx[j];
      assert KeptSf(prob)[j] == SfGrid()[k] && KeptProb(prob)[j] == prob[k];
    }
    forall k | 0 <= k < 130 && prob[k] > ProbThreshold
      ensures exists j :: 0 <= j < |KeptSf(prob)| && KeptSf(prob)[j] == SfGrid()[k] && KeptProb(prob)[j] == prob[k]
    {
      assert KeepMask(prob)[k];
      var j :| 0 <= j < |idx| && idx[j] == k;
      assert KeptSf(prob)[j] == SfGrid()[k];
    }
  }

  /** Every kept sparing factor is a positive bin centre. */
  lemma KeptSfPositive(prob: seq<real>)
    requires |prob| == 130
    ensures forall j :: 0 <= j < |KeptSf(prob)| ==> 0.0 < KeptSf(prob)[j] <= 1.3
  {
    forall j | 0 <= j < |KeptSf(prob)|
      ensures 0.0 < KeptSf(prob)[j] <= 1.3
    {
      var k := Nonzero(KeepMask(prob))[j];
      assert KeptSf(prob)[j] == SfGrid()[k];
    }
  }

  /**
   * The filter can only leave no bin at all when the 130 bins together carry
   * at most 130 times the threshold of probability.
   */
  lemma EmptyFilterMeansLittleMass(prob: seq<real>)
    requires |prob| == 130
    requires |KeptProb(prob)| == 0
    ensures Sum(prob) <= 130.0 * ProbThreshold
  {
    forall k | 0 <= k < 130
      ensures prob[k] <= Full(130, ProbThreshold)[k]
    {
      assert |Nonzero(KeepMask(prob))| == 0;
      assert !KeepMask(prob)[k];
    }
    SumMonotone(prob, Full(130, ProbThreshold));
    SumFull(130, ProbThreshold);
  }

  /**
   * A BED state grid: `np.arange(start, bound, 1)` followed by the two
   * sentinels `bound` and `bound + 1`.
   */
  function StateGrid(start: real, bound: real): (g: seq<real>)
    ensures |g| >= 2
  {
    Arange(start, bound, 1.0) + [bound, bound + 1.0]
  }

  /**
   * The grid counts up from `start` in steps of 1 while below the bound, then
   * holds exactly the two sentinels; it is strictly increasing, and it spans
   * from the smaller of `start` and `bound` to `bound + 1`.
   */
  lemma StateGridShape(start: real, bound: real)
    ensures var g := StateGrid(start, bound);
      g[|g| - 2] == bound && g[|g| - 1] == bound + 1.0
    ensures var g := StateGrid(start, bound);
      forall k :: 0 <= k < |g| - 2 ==> g[k] == start + k as real && g[k] < bound
    ensures var g := StateGrid(start, bound);
      forall k, k' :: 0 <= k < k' < |g| ==> g[k] < g[k']
    ensures var g := StateGrid(start, bound);
      g[0] == (if start < bound then start else bound)
  {
    ArangeSpec(start, bound, 1.0);
  }

  /**
   * The overdose clamp `x[x > bound] = bound + 1` keeps a projected state that
   * starts at or above the grid's first point inside the grid's range, which is
   * where the grid interpolator accepts queries.
   */
  lemma ClampedQueryInGrid(start: real, bound: real, x: real)
    requires x >= (if start < bound then start else bound)
    ensures var g := StateGrid(start, bound);
      g[0] <= Overdose(x, bound, bound + 1.0) <= g[|g| - 1]
  {
    StateGridShape(start, bound);
  }

  /** The masked assignment `xs[xs > bound] = bound + 1` over a vector. */
  function ClampVector(xs: seq<real>, bound: real): (r: seq<real>)
    ensures |r| == |xs|
    ensures forall k :: 0 <= k < |xs| ==> r[k] == Overdose(xs[k], bound, bound + 1.0)
  {
    seq(|xs|, k requires 0 <= k < |xs| => Overdose(xs[k], bound, bound + 1.0))
  }

  /**
   * The clamp replaces exactly the entries above the bound by the upper
   * sentinel, leaves every other entry unchanged, and never yields anything
   * above the sentinel.
   */
  lemma ClampVectorSpec(xs: seq<real>, bound: real)
    ensures forall k :: 0 <= k < |xs| ==>
      (xs[k] > bound ==> ClampVector(xs, bound)[k] == bound + 1.0) &&
      (xs[k] <= bound ==> ClampVector(xs, bound)[k] == xs[k]) &&
      ClampVector(xs, bound)[k] <= bound + 1.0
  {
  }

  /** The physical doses `np.arange(0, 22.3, 0.1)`. */
  function ActionSpace(): (a: seq<real>)
    ensures |a| == 223
    ensures forall i :: 0 <= i < |a| ==> a[i] == i as real / 10.0 && a[i] >= 0.0
  {
    ArangeSpec(0.0, 22.3, 0.1);
    Arange(0.0, 22.3, 0.1)
  }

  /**
   * `argfind`: the index of the entry closest to `value`, the earliest one
   * when several are equally close.
   */
  function ArgFind(list: seq<real>, value: real): (i: nat)
    requires |list| > 0
    ensures i < |list|
    ensures forall j :: 0 <= j < |list| ==> Abs(list[i] - value) <= Abs(list[j] - value)
    ensures forall j :: 0 <= j < i ==> Abs(list[i] - value) < Abs(list[j] - value)
  {
    var distances := seq(|list|, j requires 0 <= j < |list| => Abs(list[j] - value));
    assert forall j :: 0 <= j < |list| ==> distances[j] == Abs(list[j] - value);
    ArgMin(distances)
  }
}
