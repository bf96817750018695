/**
 * `min_oar_bed`: the tumour-only planner. It tracks the accumulated tumour
 * BED on a one-dimensional state grid, charges every fraction its OAR BED,
 * shapes the terminal layer with a penalty for missing the tumour goal, and
 * returns the dose of the current fraction with its tumour and OAR BEDs.
 */
module ReinforceOar {
  import opened NumpyOps
  import opened Bed

  /** The patient and session inputs of `min_oar_bed` (the `keys` dictionary). */
  datatype Keys = Keys(
    fraction: int, numberOfFractions: int, accumulatedTumorDose: real,
    sparingFactorsPublic: seq<real>, alpha: real, beta: real,
    tumorGoal: real, abt: real, abn: real, minDose: real, maxDose: real,
    fixedProb: bool, fixedMean: real, fixedStd: real)

  /** The discretisation settings (the `sets` dictionary). */
  datatype Settings = Settings(
    sfLow: real, sfHigh: real, sfStepsize: real, sfProbThreshold: real,
    doseStepsize: real, stateStepsize: real, infPenalty: real)

  /** One sparing-factor bin and its probability. */
  datatype Bin = Bin(sf: real, prob: real)

  /**
   * The helpers `min_oar_bed` calls from outside this file: the square root,
   * the posterior standard deviation, the binned truncated normal
   * distribution and the one-dimensional interpolator.
   */
  datatype Collaborators = Collaborators(
    sqrt: real -> real,
    stdCalc: (seq<real>, real, real) -> real,
    sfProbdist: (real, real, Settings) -> seq<Bin>,
    interpolate: (real, seq<real>, seq<real>) -> real)

  /** The returned list: the physical dose and its tumour and OAR BEDs. */
  datatype Outcome = Outcome(physicalDose: real, tumorDose: real, oarDose: real)

  /**
   * The inputs this model covers: a fraction no later than the last one
   * (`np.zeros` fails on a negative number of remaining fractions), at least
   * one observed sparing factor (`sparing_factors_public[-1]`), and positive
   * alpha/beta ratios and step sizes.
   */
  predicate ValidKeys(keys: Keys, sets: Settings) {
    keys.fraction <= keys.numberOfFractions &&
    |keys.sparingFactorsPublic| > 0 &&
    keys.abt > 0.0 && keys.abn > 0.0 &&
    sets.doseStepsize > 0.0 && sets.stateStepsize > 0.0
  }

  /** Mean and standard deviation of the sparing-factor distribution. */
  function Distribution(c: Collaborators, keys: Keys): (real, real)
    requires |keys.sparingFactorsPublic| > 0
  {
    if !keys.fixedProb then
      (Mean(keys.sparingFactorsPublic), c.stdCalc(keys.sparingFactorsPublic, keys.alpha, keys.beta))
    else
      (keys.fixedMean, keys.fixedStd)
  }

  /**
   * The maximum dose after setup: `-1` asks for the largest dose the
   * remaining tumour budget allows, and any larger maximum is cut down to it.
   */
  function ClampMaxDose(maxDose: real, maxPhysical: real): (m: real)
    ensures m <= maxPhysical
    ensures maxDose == -1.0 ==> m == maxPhysical
    ensures maxDose != -1.0 ==> m <= maxDose && (m == maxDose || m == maxPhysical)
  {
    if maxDose == -1.0 then maxPhysical
    else if maxDose > maxPhysical then maxPhysical
    else maxDose
  }

  /**
   * The minimum dose after setup: one larger than the maximum is moved one
   * step below the maximum, so the minimum never exceeds the maximum.
   */
  function ShrinkMinDose(minDose: real, maxDose: real, step: real): (m: real)
    requires step > 0.0
    ensures m <= maxDose
    ensures minDose <= maxDose ==> m == minDose
    ensures minDose > maxDose ==> m < maxDose && maxDose - m == step
  {
    if minDose > maxDose then maxDose - step else minDose
  }

  /** `step_round`: `x` rounded down to a multiple of `step`. */
  function StepRound(x: real, step: real): (r: real)
    requires step > 0.0
    ensures r <= x
    ensures x < r + step
  {
    var n := (x / step).Floor;
    FloorTimesStep(x, step, n);
    n as real * step
  }

  lemma FloorTimesStep(x: real, step: real, n: int)
    requires step > 0.0 && n == (x / step).Floor
    ensures n as real * step <= x < n as real * step + step
  {
    var y := x / step;
    var m := n as real;
    assert m <= y < m + 1.0;
    assert y * step == x;
    MulAtLeast(y, m, step);
    MulLess(y, m + 1.0, step);
    calc {
      x;
      y * step;
    <
      (m + 1.0) * step;
      m * step + step;
    }
  }

  /**
   * The action space in physical dose: `np.arange(min, min + step_round(max -
   * min), step)` with the maximum appended.
   */
  function ActionSpace(minDose: real, maxDose: real, step: real): (a: seq<real>)
    requires step > 0.0
    ensures |a| > 0 && a[|a| - 1] == maxDose
  {
    Arange(minDose, StepRound(maxDose - minDose, step) + minDose, step) + [maxDose]
  }

  /**
   * The action space counts up from the minimum in dose steps and ends at
   * exactly the maximum; it is strictly increasing, stays within [min, max],
   * and starts at the minimum whenever the two are at least a step apart.
   */
  lemma ActionSpaceShape(minDose: real, maxDose: real, step: real)
    requires step > 0.0 && minDose <= maxDose
    ensures var a := ActionSpace(minDose, maxDose, step);
      forall k :: 0 <= k < |a| - 1 ==> a[k] == minDose + k as real * step
    ensures var a := ActionSpace(minDose, maxDose, step);
      forall k :: 0 <= k < |a| ==> minDose <= a[k] <= maxDose
    ensures var a := ActionSpace(minDose, maxDose, step);
      forall k, k' :: 0 <= k < k' < |a| ==> a[k] < a[k']
    ensures var a := ActionSpace(minDose, maxDose, step);
      maxDose - minDose >= step ==> |a| >= 2 && a[0] == minDose
  {
    var stop := StepRound(maxDose - minDose, step) + minDose;
    var r := Arange(minDose, stop, step);
    var a := ActionSpace(minDose, maxDose, step);
    ArangeSpec(minDose, stop, step);
    ArangeIncreasing(minDose, stop, step);
    assert a == r + [maxDose];
    assert stop <= maxDose;
    ActionSpaceIncreasing(r, maxDose, a);
    if maxDose - minDose >= step {
      assert stop > minDose;
    }
  }

  lemma ActionSpaceIncreasing(r: seq<real>, last: real, a: seq<real>)
    requires a == r + [last]
    requires forall k, k' :: 0 <= k < k' < |r| ==> r[k] < r[k']
    requires forall k :: 0 <= k < |r| ==> r[k] < last
    ensures forall k, k' :: 0 <= k < k' < |a| ==> a[k] < a[k']
  {
    forall k, k' | 0 <= k < k' < |a|
      ensures a[k] < a[k']
    {
      if k' < |r| {
        assert a[k] == r[k] && a[k'] == r[k'];
      } else {
        assert a[k] == r[k] && a[k'] == last;
      }
    }
  }

  /** The tumour BED states `np.arange(accumulated, goal + step, step)`. */
  function BedtStates(accumulated: real, goal: real, step: real): (b: seq<real>)
    requires step > 0.0
  {
    Arange(accumulated, goal + step, step)
  }

  /**
   * The states count up from the accumulated tumour BED in state steps, all
   * below the tumour limit `goal + step`; there is at least one exactly when
   * the accumulated BED is below the limit, and then the last one has
   * reached the goal.
   */
  lemma BedtStatesShape(accumulated: real, goal: real, step: real)
    requires step > 0.0
    ensures var b := BedtStates(accumulated, goal, step);
      forall k :: 0 <= k < |b| ==> b[k] == accumulated + k as real * step && b[k] < goal + step
    ensures var b := BedtStates(accumulated, goal, step);
      |b| > 0 <==> accumulated < goal + step
    ensures var b := BedtStates(accumulated, goal, step);
      |b| > 0 ==> b[|b| - 1] >= goal
  {
    var b := BedtStates(accumulated, goal, step);
    ArangeSpec(accumulated, goal + step, step);
    if |b| > 0 {
      var n := |b|;
      assert (n - 1) as real * step == n as real * step - step;
    }
  }

  /** BED of every dose of a vector at one sparing factor (`bed_calc0` on an array). */
  function BedVector(doses: seq<real>, ab: real, sparing: real): (v: seq<real>)
    requires ab != 0.0
    ensures |v| == |doses|
    ensures forall i :: 0 <= i < |doses| ==> v[i] == BedCalc0(doses[i], ab, sparing)
  {
    seq(|doses|, i requires 0 <= i < |doses| => BedCalc0(doses[i], ab, sparing))
  }

  /**
   * `afx.bed_calc_matrix(doses, ab, sf)` as this file uses it: one row per
   * dose, one column per sparing factor (the shapes it is reshaped and added
   * to fix this orientation).
   */
  function BedMatrix(doses: seq<real>, ab: real, sf: seq<real>): (m: seq<seq<real>>)
    requires ab != 0.0
    ensures |m| == |doses|
    ensures forall i :: 0 <= i < |doses| ==> |m[i]| == |sf|
    ensures forall i, k :: 0 <= i < |doses| && 0 <= k < |sf| ==> m[i][k] == BedCalc0(doses[i], ab, sf[k])
  {
    seq(|doses|, i requires 0 <= i < |doses| =>
      seq(|sf|, k requires 0 <= k < |sf| => BedCalc0(doses[i], ab, sf[k])))
  }

  /** This matrix is the transpose of the sparing-factor-major `BED_calc_matrix`. */
  lemma BedMatrixTransposed(doses: seq<real>, ab: real, sf: seq<real>)
    requires ab != 0.0
    ensures forall i, k :: 0 <= i < |doses| && 0 <= k < |sf| ==>
      BedMatrix(doses, ab, sf)[i][k] == BedCalcMatrix(doses, ab, sf)[k][i]
  {
  }

  /** Everything the layers are built from. */
  datatype Tables = Tables(
    sf: seq<real>, prob: seq<real>, actions: seq<real>,
    minDose: real, maxDose: real, remainingBed: real,
    tumorLimit: real, bedtStates: seq<real>,
    bednSpace: seq<real>, bedtSpace: seq<real>, bednSfSpace: seq<seq<real>>,
    actualSf: real)

  predicate WellFormed(t: Tables) {
    |t.prob| == |t.sf| && |t.actions| > 0 &&
    |t.bednSpace| == |t.actions| && |t.bedtSpace| == |t.actions| &&
    |t.bednSfSpace| == |t.actions| &&
    (forall a :: 0 <= a < |t.actions| ==> |t.bednSfSpace[a]| == |t.sf|) &&
    t.minDose <= t.maxDose
  }

  /** The largest dose the remaining tumour budget allows. */
  function MaxPhysicalDose(c: Collaborators, keys: Keys): real
    requires keys.abt > 0.0
  {
    ConvertToPhysical(c.sqrt, keys.tumorGoal - keys.accumulatedTumorDose, keys.abt)
  }

  /** The setup part of `min_oar_bed`: distribution, dose limits, action space, states and BED tables. */
  function Setup(c: Collaborators, keys: Keys, sets: Settings): (t: Tables)
    requires ValidKeys(keys, sets)
    ensures WellFormed(t)
  {
    var spf := keys.sparingFactorsPublic;
    var actualSf := spf[|spf| - 1];
    var dist := Distribution(c, keys);
    var bins := c.sfProbdist(dist.0, dist.1, sets);
    var sf := seq(|bins|, k requires 0 <= k < |bins| => bins[k].sf);
    var prob := seq(|bins|, k requires 0 <= k < |bins| => bins[k].prob);
    var maxDose := ClampMaxDose(keys.maxDose, MaxPhysicalDose(c, keys));
    var minDose := ShrinkMinDose(keys.minDose, maxDose, sets.doseStepsize);
    var actions := ActionSpace(minDose, maxDose, sets.doseStepsize);
    Tables(sf, prob, actions, minDose, maxDose, keys.tumorGoal - keys.accumulatedTumorDose,
      keys.tumorGoal + sets.stateStepsize,
      BedtStates(keys.accumulatedTumorDose, keys.tumorGoal, sets.stateStepsize),
      BedVector(actions, keys.abn, actualSf), BedVector(actions, keys.abt, 1.0),
      BedMatrix(actions, keys.abn, sf), actualSf)
  }

  /**
   * The dose limits after setup: the maximum never exceeds the dose the
   * remaining budget allows, and the minimum never exceeds the maximum.
   */
  lemma SetupDoseLimits(c: Collaborators, keys: Keys, sets: Settings)
    requires ValidKeys(keys, sets)
    ensures var t := Setup(c, keys, sets);
      t.maxDose <= MaxPhysicalDose(c, keys) && t.minDose <= t.maxDose
    ensures var t := Setup(c, keys, sets);
      keys.maxDose == -1.0 ==> t.maxDose == MaxPhysicalDose(c, keys)
    ensures var t := Setup(c, keys, sets);
      forall a :: 0 <= a < |t.actions| ==> t.minDose <= t.actions[a] <= t.maxDose
  {
    var t := Setup(c, keys, sets);
    ActionSpaceShape(t.minDose, t.maxDose, sets.doseStepsize);
  }

  /** A value table layer: one row per tumour BED state, one column per sparing-factor bin. */
  type Layer = seq<seq<real>>

  predicate IsLayer(l: Layer, t: Tables) {
    |l| == |t.bedtStates| && forall s :: 0 <= s < |l| ==> |l[s]| == |t.sf|
  }

  /**
   * The masked assignment `xs[xs < bound] = bound`: every entry is raised to
   * the bound, never lowered, and moved only onto the bound, so each entry
   * becomes the larger of itself and the bound.
   */
  function RaiseTo(xs: seq<real>, bound: real): (r: seq<real>)
    ensures |r| == |xs|
    ensures forall i :: 0 <= i < |xs| ==> bound <= r[i] && xs[i] <= r[i] && (r[i] == xs[i] || r[i] == bound)
  {
    seq(|xs|, i requires 0 <= i < |xs| => if xs[i] < bound then bound else xs[i])
  }

  /**
   * The masked assignment `xs[xs > bound] = bound`: every entry is cut to the
   * bound, never raised, and moved only onto the bound, so each entry
   * becomes the smaller of itself and the bound.
   */
  function CapAt(xs: seq<real>, bound: real): (r: seq<real>)
    ensures |r| == |xs|
    ensures forall i :: 0 <= i < |xs| ==> r[i] <= bound && r[i] <= xs[i] && (r[i] == xs[i] || r[i] == bound)
  {
    seq(|xs|, i requires 0 <= i < |xs| => if xs[i] > bound then bound else xs[i])
  }

  /** `xs[xs < bound] = bound`, in place. */
  method RaiseInPlace(xs: array<real>, bound: real)
    modifies xs
    ensures xs[..] == RaiseTo(old(xs[..]), bound)
  {
    for i := 0 to xs.Length
      invariant forall j :: 0 <= j < i ==> xs[j] == (if old(xs[j]) < bound then bound else old(xs[j]))
      invariant forall j :: i <= j < xs.Length ==> xs[j] == old(xs[j])
    {
      if xs[i] < bound {
        xs[i] := bound;
      }
    }
  }

  /** `xs[xs > bound] = bound`, in place. */
  method CapInPlace(xs: array<real>, bound: real)
    modifies xs
    ensures xs[..] == CapAt(old(xs[..]), bound)
  {
    for i := 0 to xs.Length
      invariant forall j :: 0 <= j < i ==> xs[j] == (if old(xs[j]) > bound then bound else old(xs[j]))
      invariant forall j :: i <= j < xs.Length ==> xs[j] == old(xs[j])
    {
      if xs[i] > bound {
        xs[i] := bound;
      }
    }
  }

  /**
   * The BED still needed from each state, `tumor_goal - bedt_states`: added
   * to its state, it lands exactly on the tumour goal.
   */
  function Needed(keys: Keys, t: Tables): (r: seq<real>)
    ensures |r| == |t.bedtStates|
    ensures forall s :: 0 <= s < |r| ==> t.bedtStates[s] + r[s] == keys.tumorGoal
  {
    seq(|t.bedtStates|, s requires 0 <= s < |t.bedtStates| => keys.tumorGoal - t.bedtStates[s])
  }

  /** The last actions in tumour BED: what is still needed, cut to [BED(min dose), BED(max dose)]. */
  function LastActions(keys: Keys, t: Tables): (r: seq<real>)
    requires keys.abt > 0.0
    ensures |r| == |t.bedtStates|
  {
    CapAt(RaiseTo(Needed(keys, t), BedCalc0(t.minDose, keys.abt, 1.0)), BedCalc0(t.maxDose, keys.abt, 1.0))
  }

  /**
   * Every last action lies between the BEDs of the minimum and maximum dose,
   * and is exactly what the state still needs when that lies between them.
   */
  lemma LastActionsClamped(keys: Keys, t: Tables)
    requires keys.abt > 0.0 && t.minDose <= t.maxDose
    ensures var minBed := BedCalc0(t.minDose, keys.abt, 1.0);
      var maxBed := BedCalc0(t.maxDose, keys.abt, 1.0);
      forall s :: 0 <= s < |t.bedtStates| ==>
        (LastActions(keys, t)[s] <= maxBed) &&
        (minBed <= maxBed ==> minBed <= LastActions(keys, t)[s]) &&
        (minBed <= keys.tumorGoal - t.bedtStates[s] <= maxBed ==>
          LastActions(keys, t)[s] == keys.tumorGoal - t.bedtStates[s])
  {
  }

  /**
   * The terminal shaping: `-inf_penalty * |state + action - goal|`, written
   * as the source does with a sign test on the scaled difference.
   */
  function Penalty(goal: real, state: real, action: real, infPenalty: real): (p: real)
    ensures p == -Abs((state + action - goal) * infPenalty)
    ensures infPenalty >= 0.0 ==> p == -(infPenalty * Abs(state + action - goal))
  {
    var diff := (state + action - goal) * infPenalty;
    ScaledAbs(state + action - goal, infPenalty);
    if diff > 0.0 then -diff else diff
  }

  lemma ScaledAbs(x: real, k: real)
    ensures k >= 0.0 ==> (if x * k > 0.0 then -(x * k) else x * k) == -(k * Abs(x))
  {
    if k < 0.0 {
    } else if x < 0.0 {
      assert x * k <= 0.0;
      assert k * Abs(x) == -(x * k);
    } else {
      assert x * k >= 0.0;
    }
  }

  /** The penalty is never positive, and with a nonzero weight it is zero exactly when the goal is hit. */
  lemma PenaltySign(goal: real, state: real, action: real, infPenalty: real)
    requires infPenalty != 0.0
    ensures Penalty(goal, state, action, infPenalty) <= 0.0
    ensures Penalty(goal, state, action, infPenalty) == 0.0 <==> state + action == goal
  {
    var x := state + action - goal;
    if x != 0.0 {
      NonzeroProduct(x, infPenalty);
    }
  }

  lemma NonzeroProduct(x: real, k: real)
    requires x != 0.0 && k != 0.0
    ensures x * k != 0.0
  {
  }

  /**
   * The terminal layer from the last actions: minus the OAR BED of the dose
   * that delivers each last action, plus the penalty of its state.
   */
  function TerminalLayerFrom(c: Collaborators, keys: Keys, sets: Settings, t: Tables, lastActions: seq<real>): (l: Layer)
    requires keys.abt > 0.0 && keys.abn > 0.0 && |lastActions| == |t.bedtStates|
    ensures IsLayer(l, t)
  {
    seq(|t.bedtStates|, s requires 0 <= s < |t.bedtStates| =>
      seq(|t.sf|, k requires 0 <= k < |t.sf| =>
        -BedCalc0(ConvertToPhysical(c.sqrt, lastActions[s], keys.abt), keys.abn, t.sf[k]) +
        Penalty(keys.tumorGoal, t.bedtStates[s], lastActions[s], sets.infPenalty)))
  }

  /** BED at sparing 1 never drops below -ab/4, the vertex of the quadratic. */
  lemma BedAtLeastQuarter(d: real, ab: real)
    requires ab > 0.0
    ensures BedCalc0(d, ab, 1.0) >= -ab / 4.0
  {
    var e := d + ab / 2.0;
    calc {
      BedCalc0(d, ab, 1.0) + ab / 4.0;
      d * (1.0 + d / ab) + ab / 4.0;
      d + d * (d / ab) + ab / 4.0;
      { assert d * (d / ab) == (d * d) / ab; }
      d + (d * d) / ab + ab / 4.0;
      { assert (e * e) / ab == (d * d + d * ab + ab * ab / 4.0) / ab; }
      (e * e) / ab;
    }
    assert e * e >= 0.0;
    DivMonotone(0.0, e * e, ab);
  }

  /**
   * Terminal cells: each value is minus the OAR BED of the dose that delivers
   * the last action, plus a penalty that is never positive and is zero
   * exactly when state and last action together hit the goal; that dose
   * delivers the (clamped) last action exactly.
   */
  lemma TerminalLayerSpec(c: Collaborators, keys: Keys, sets: Settings, t: Tables)
    requires ValidKeys(keys, sets) && sets.infPenalty > 0.0 && t.minDose <= t.maxDose
    ensures var l := TerminalLayerFrom(c, keys, sets, t, LastActions(keys, t));
      forall s, k :: 0 <= s < |t.bedtStates| && 0 <= k < |t.sf| ==>
        var best := ConvertToPhysical(c.sqrt, LastActions(keys, t)[s], keys.abt);
        l[s][k] <= -BedCalc0(best, keys.abn, t.sf[k]) &&
        (l[s][k] == -BedCalc0(best, keys.abn, t.sf[k]) <==> t.bedtStates[s] + LastActions(keys, t)[s] == keys.tumorGoal)
    ensures IsSqrt(c.sqrt) ==>
      forall s :: 0 <= s < |t.bedtStates| ==>
        BedCalc0(ConvertToPhysical(c.sqrt, LastActions(keys, t)[s], keys.abt), keys.abt, 1.0) == LastActions(keys, t)[s]
  {
    var acts := LastActions(keys, t);
    forall s | 0 <= s < |t.bedtStates|
      ensures Penalty(keys.tumorGoal, t.bedtStates[s], acts[s], sets.infPenalty) <= 0.0
      ensures Penalty(keys.tumorGoal, t.bedtStates[s], acts[s], sets.infPenalty) == 0.0 <==>
        t.bedtStates[s] + acts[s] == keys.tumorGoal
    {
      PenaltySign(keys.tumorGoal, t.bedtStates[s], acts[s], sets.infPenalty);
    }
    if IsSqrt(c.sqrt) {
      BedAtLeastQuarter(t.minDose, keys.abt);
      BedAtLeastQuarter(t.maxDose, keys.abt);
      forall s | 0 <= s < |t.bedtStates|
        ensures BedCalc0(ConvertToPhysical(c.sqrt, acts[s], keys.abt), keys.abt, 1.0) == acts[s]
      {
        assert acts[s] >= -keys.abt / 4.0;
        BudgetDoseSolves(c.sqrt, 1.0, keys.abt, acts[s]);
      }
    }
  }

  /** `(values[i - 1] * prob).sum(axis=1)`: the expected value of each state over the sparing-factor bins. */
  function Marginal(l: Layer, t: Tables): (m: seq<real>)
    requires WellFormed(t) && IsLayer(l, t)
    ensures |m| == |t.bedtStates|
  {
    seq(|l|, s requires 0 <= s < |l| => WeightedSum(l[s], t.prob))
  }

  /**
   * `values_penalties[s][a]`: the interpolated future value of action `a` from
   * state `s`, with an overdosed projection moved to the tumour limit and
   * charged the infinite penalty.
   */
  function FutureValue(c: Collaborators, keys: Keys, sets: Settings, t: Tables, fvd: seq<real>, s: nat, a: nat): real
    requires WellFormed(t) && s < |t.bedtStates| && a < |t.actions|
  {
    var projected := t.bedtStates[s] + t.bedtSpace[a];
    var fv := c.interpolate(Overdose(projected, keys.tumorGoal, t.tumorLimit), t.bedtStates, fvd);
    if projected > keys.tumorGoal then fv - sets.infPenalty else fv
  }

  /** The value of every action from state `s` at sparing-factor bin `k`. */
  function ActionValues(c: Collaborators, keys: Keys, sets: Settings, t: Tables, fvd: seq<real>, s: nat, k: nat): (vs: seq<real>)
    requires WellFormed(t) && s < |t.bedtStates| && k < |t.sf|
    ensures |vs| == |t.actions|
    ensures forall a :: 0 <= a < |t.actions| ==>
      vs[a] == -t.bednSfSpace[a][k] + FutureValue(c, keys, sets, t, fvd, s, a)
  {
    seq(|t.actions|, a requires 0 <= a < |t.actions| =>
      -t.bednSfSpace[a][k] + FutureValue(c, keys, sets, t, fvd, s, a))
  }

  /** An interior layer: every cell is the best action value, `vs.max(axis=1)`. */
  function InteriorLayer(c: Collaborators, keys: Keys, sets: Settings, t: Tables, prev: Layer): (l: Layer)
    requires WellFormed(t) && IsLayer(prev, t)
    ensures IsLayer(l, t)
  {
    var fvd := Marginal(prev, t);
    seq(|t.bedtStates|, s requires 0 <= s < |t.bedtStates| =>
      seq(|t.sf|, k requires 0 <= k < |t.sf| => Max(ActionValues(c, keys, sets, t, fvd, s, k))))
  }

  /**
   * Interior cells: each is at least the value of every action (OAR BED
   * charged, future value interpolated, overdose penalised) and equals the
   * value of one of them.
   */
  lemma InteriorLayerSpec(c: Collaborators, keys: Keys, sets: Settings, t: Tables, prev: Layer, s: nat, k: nat)
    requires WellFormed(t) && IsLayer(prev, t) && s < |t.bedtStates| && k < |t.sf|
    ensures var l := InteriorLayer(c, keys, sets, t, prev);
      var fvd := Marginal(prev, t);
      (forall a :: 0 <= a < |t.actions| ==>
        l[s][k] >= -t.bednSfSpace[a][k] + FutureValue(c, keys, sets, t, fvd, s, a)) &&
      (exists a :: 0 <= a < |t.actions| && l[s][k] == -t.bednSfSpace[a][k] + FutureValue(c, keys, sets, t, fvd, s, a))
    ensures var fvd := Marginal(prev, t);
      forall a :: 0 <= a < |t.actions| && t.bedtStates[s] + t.bedtSpace[a] > keys.tumorGoal ==>
        FutureValue(c, keys, sets, t, fvd, s, a) == c.interpolate(t.tumorLimit, t.bedtStates, fvd) - sets.infPenalty
  {
    var fvd := Marginal(prev, t);
    var vs := ActionValues(c, keys, sets, t, fvd, s, k);
    var b := ArgMax(vs);
    assert InteriorLayer(c, keys, sets, t, prev)[s][k] == vs[b];
  }

  /** Layer `i` of the value table, counting back from the terminal layer 0. */
  function ValuesLayer(c: Collaborators, keys: Keys, sets: Settings, t: Tables, i: nat): (l: Layer)
    requires keys.abt > 0.0 && keys.abn > 0.0 && WellFormed(t)
    ensures IsLayer(l, t)
    decreases i
  {
    if i == 0 then TerminalLayerFrom(c, keys, sets, t, LastActions(keys, t))
    else InteriorLayer(c, keys, sets, t, ValuesLayer(c, keys, sets, t, i - 1))
  }

  /** The value of every action in the current fraction, from the accumulated tumour BED. */
  function DecisionValues(c: Collaborators, keys: Keys, t: Tables, prev: Layer): (vs: seq<real>)
    requires WellFormed(t) && IsLayer(prev, t)
    ensures |vs| == |t.actions|
  {
    var fvd := Marginal(prev, t);
    seq(|t.actions|, a requires 0 <= a < |t.actions| =>
      -t.bednSpace[a] +
      c.interpolate(Overdose(keys.accumulatedTumorDose + t.bedtSpace[a], keys.tumorGoal, t.tumorLimit), t.bedtStates, fvd))
  }

  /** The dose of the last fraction: what the remaining budget allows, cut to [min dose, max dose]. */
  function LastFractionDose(c: Collaborators, keys: Keys, t: Tables): real
    requires keys.abt > 0.0
  {
    var best := ConvertToPhysical(c.sqrt, t.remainingBed, keys.abt);
    var raised := if best < t.minDose then t.minDose else best;
    if raised > t.maxDose then t.maxDose else raised
  }

  /** The dose `min_oar_bed` chooses for the current fraction. */
  function ChosenDose(c: Collaborators, keys: Keys, sets: Settings, t: Tables): real
    requires ValidKeys(keys, sets) && WellFormed(t)
  {
    if keys.fraction == keys.numberOfFractions then LastFractionDose(c, keys, t)
    else
      var prev := ValuesLayer(c, keys, sets, t, (keys.numberOfFractions - keys.fraction - 1) as nat);
      t.actions[ArgMax(DecisionValues(c, keys, t, prev))]
  }

  /** What `min_oar_bed` returns. */
  function MinOarBedSpec(c: Collaborators, keys: Keys, sets: Settings): Outcome
    requires ValidKeys(keys, sets)
  {
    var t := Setup(c, keys, sets);
    var dose := ChosenDose(c, keys, sets, t);
    Outcome(dose, BedCalc0(dose, keys.abt, 1.0), BedCalc0(dose, keys.abn, t.actualSf))
  }

  /**
   * The chosen dose lies in [min dose, max dose]; before the last fraction it
   * is the action at the first maximum of the action values, and the
   * returned BEDs are its tumour BED and its OAR BED at the last observed
   * sparing factor.
   */
  lemma MinOarBedDose(c: Collaborators, keys: Keys, sets: Settings)
    requires ValidKeys(keys, sets)
    ensures var t := Setup(c, keys, sets);
      var out := MinOarBedSpec(c, keys, sets);
      t.minDose <= out.physicalDose <= t.maxDose
    ensures var t := Setup(c, keys, sets);
      var out := MinOarBedSpec(c, keys, sets);
      keys.fraction < keys.numberOfFractions ==>
        var prev := ValuesLayer(c, keys, sets, t, (keys.numberOfFractions - keys.fraction - 1) as nat);
        var vs := DecisionValues(c, keys, t, prev);
        exists a :: 0 <= a < |t.actions| && out.physicalDose == t.actions[a] &&
          (forall b :: 0 <= b < |t.actions| ==> vs[b] <= vs[a]) &&
          (forall b :: 0 <= b < a ==> vs[b] < vs[a])
    ensures var out := MinOarBedSpec(c, keys, sets);
      var spf := keys.sparingFactorsPublic;
      out.tumorDose == BedCalc0(out.physicalDose, keys.abt, 1.0) &&
      out.oarDose == BedCalc0(out.physicalDose, keys.abn, spf[|spf| - 1])
  {
    var t := Setup(c, keys, sets);
    var d := ChosenDose(c, keys, sets, t);
    assert MinOarBedSpec(c, keys, sets) == Outcome(d, BedCalc0(d, keys.abt, 1.0), BedCalc0(d, keys.abn, t.actualSf));
    ChosenDoseLimits(c, keys, sets, t);
  }

  /** The chosen dose lies in [min dose, max dose] and, before the last fraction, is the first maximising action. */
  lemma ChosenDoseLimits(c: Collaborators, keys: Keys, sets: Settings, t: Tables)
    requires ValidKeys(keys, sets) && t == Setup(c, keys, sets)
    ensures t.minDose <= ChosenDose(c, keys, sets, t) <= t.maxDose
    ensures keys.fraction < keys.numberOfFractions ==>
      var prev := ValuesLayer(c, keys, sets, t, (keys.numberOfFractions - keys.fraction - 1) as nat);
      var vs := DecisionValues(c, keys, t, prev);
      exists a :: 0 <= a < |t.actions| && ChosenDose(c, keys, sets, t) == t.actions[a] &&
        (forall b :: 0 <= b < |t.actions| ==> vs[b] <= vs[a]) &&
        (forall b :: 0 <= b < a ==> vs[b] < vs[a])
  {
    SetupDoseLimits(c, keys, sets);
    if keys.fraction < keys.numberOfFractions {
      FirstMaximisingAction(c, keys, sets, t);
    } else {
      assert ChosenDose(c, keys, sets, t) == LastFractionDose(c, keys, t);
    }
  }

  /** Before the last fraction the chosen dose is the action at the first maximum of the action values. */
  lemma FirstMaximisingAction(c: Collaborators, keys: Keys, sets: Settings, t: Tables)
    requires ValidKeys(keys, sets) && WellFormed(t) && keys.fraction < keys.numberOfFractions
    ensures var prev := ValuesLayer(c, keys, sets, t, (keys.numberOfFractions - keys.fraction - 1) as nat);
      var vs := DecisionValues(c, keys, t, prev);
      var a := ArgMax(vs);
      a < |t.actions| && ChosenDose(c, keys, sets, t) == t.actions[a] &&
      (forall b :: 0 <= b < |t.actions| ==> vs[b] <= vs[a]) &&
      (forall b :: 0 <= b < a ==> vs[b] < vs[a])
  {
  }

  /**
   * The chosen dose never overshoots the tumour goal: with a nonnegative
   * budget left and a nonnegative dose, the tumour BED of the fraction stays
   * within what is left.
   */
  lemma MinOarBedWithinBudget(c: Collaborators, keys: Keys, sets: Settings)
    requires ValidKeys(keys, sets) && IsSqrt(c.sqrt)
    requires keys.tumorGoal - keys.accumulatedTumorDose >= 0.0
    requires MinOarBedSpec(c, keys, sets).physicalDose >= 0.0
    ensures keys.accumulatedTumorDose + MinOarBedSpec(c, keys, sets).tumorDose <= keys.tumorGoal
  {
    var t := Setup(c, keys, sets);
    var d := MinOarBedSpec(c, keys, sets).physicalDose;
    MinOarBedDose(c, keys, sets);
    SetupDoseLimits(c, keys, sets);
    BudgetDoseIsLargestAdmissible(c.sqrt, 1.0, keys.abt, keys.tumorGoal - keys.accumulatedTumorDose, d);
  }

  /**
   * In the last fraction, when neither the minimum nor a user maximum binds,
   * the dose is the one the remaining budget allows and it reaches the tumour
   * goal exactly.
   */
  lemma LastFractionReachesGoal(c: Collaborators, keys: Keys, sets: Settings)
    requires ValidKeys(keys, sets) && IsSqrt(c.sqrt)
    requires keys.fraction == keys.numberOfFractions
    requires keys.tumorGoal - keys.accumulatedTumorDose >= -keys.abt / 4.0
    requires keys.minDose <= MaxPhysicalDose(c, keys)
    requires keys.maxDose == -1.0 || keys.maxDose >= MaxPhysicalDose(c, keys)
    ensures MinOarBedSpec(c, keys, sets).physicalDose == MaxPhysicalDose(c, keys)
    ensures keys.accumulatedTumorDose + MinOarBedSpec(c, keys, sets).tumorDose == keys.tumorGoal
  {
    BudgetDoseSolves(c.sqrt, 1.0, keys.abt, keys.tumorGoal - keys.accumulatedTumorDose);
  }

  /** A layer of zeros, as `np.zeros` allocates it. */
  function ZeroLayer(t: Tables): (l: Layer)
    ensures IsLayer(l, t)
  {
    seq(|t.bedtStates|, s => seq(|t.sf|, k => 0.0))
  }

  /**
   * The setup part of `min_oar_bed`: the distribution, then `max_dose` and
   * `min_dose` reassigned by the clamp and shrink rules, then the grids.
   */
  method SetUp(c: Collaborators, keys: Keys, sets: Settings) returns (t: Tables)
    requires ValidKeys(keys, sets)
    ensures t == Setup(c, keys, sets)
  {
    var spf := keys.sparingFactorsPublic;
    var actualSf := spf[|spf| - 1];
    var mean, std;
    if !keys.fixedProb {
      mean := Mean(spf);
      std := c.stdCalc(spf, keys.alpha, keys.beta);
    } else {
      mean := keys.fixedMean;
      std := keys.fixedStd;
    }
    assert (mean, std) == Distribution(c, keys);
    var bins := c.sfProbdist(mean, std, sets);
    var sf := seq(|bins|, k requires 0 <= k < |bins| => bins[k].sf);
    var prob := seq(|bins|, k requires 0 <= k < |bins| => bins[k].prob);

    var remainingBed := keys.tumorGoal - keys.accumulatedTumorDose;
    var maxPhysicalDose := ConvertToPhysical(c.sqrt, remainingBed, keys.abt);
    var maxDose := keys.maxDose;
    if maxDose == -1.0 {
      maxDose := maxPhysicalDose;
    } else if maxDose > maxPhysicalDose {
      maxDose := maxPhysicalDose;
    }
    assert maxDose == ClampMaxDose(keys.maxDose, MaxPhysicalDose(c, keys));
    var minDose := keys.minDose;
    if minDose > maxDose {
      minDose := maxDose - sets.doseStepsize;
    }
    assert minDose == ShrinkMinDose(keys.minDose, maxDose, sets.doseStepsize);
    var actionspace := ActionSpace(minDose, maxDose, sets.doseStepsize);
    var tumorLimit := keys.tumorGoal + sets.stateStepsize;
    var bedtStates := Arange(keys.accumulatedTumorDose, tumorLimit, sets.stateStepsize);
    t := Tables(sf, prob, actionspace, minDose, maxDose, remainingBed, tumorLimit, bedtStates,
      BedVector(actionspace, keys.abn, actualSf), BedVector(actionspace, keys.abt, 1.0),
      BedMatrix(actionspace, keys.abn, sf), actualSf);
  }

  /**
   * The terminal layer: `last_actions` starts as what each state still needs
   * and is clamped in place, first from below and then from above.
   */
  method TerminalValues(c: Collaborators, keys: Keys, sets: Settings, t: Tables) returns (l: Layer)
    requires ValidKeys(keys, sets) && WellFormed(t)
    ensures l == ValuesLayer(c, keys, sets, t, 0)
  {
    var bedtStates := t.bedtStates;
    var lastActions := new real[|bedtStates|](s requires 0 <= s < |bedtStates| => keys.tumorGoal - bedtStates[s]);
    assert lastActions[..] == Needed(keys, t);
    var minDoseBed := BedCalc0(t.minDose, keys.abt, 1.0);
    var maxDoseBed := BedCalc0(t.maxDose, keys.abt, 1.0);
    RaiseInPlace(lastActions, minDoseBed);
    CapInPlace(lastActions, maxDoseBed);
    l := TerminalLayerFrom(c, keys, sets, t, lastActions[..]);
  }

  /**
   * The decision of `min_oar_bed` before the last fraction: the action with
   * the first highest value against the layer of the next fraction.
   */
  method Decide(c: Collaborators, keys: Keys, sets: Settings, t: Tables, prev: Layer) returns (physicalDose: real)
    requires ValidKeys(keys, sets) && WellFormed(t) && keys.fraction < keys.numberOfFractions
    requires prev == ValuesLayer(c, keys, sets, t, (keys.numberOfFractions - keys.fraction - 1) as nat)
    ensures physicalDose == ChosenDose(c, keys, sets, t)
  {
    var vs := DecisionValues(c, keys, t, prev);
    physicalDose := t.actions[ArgMax(vs)];
  }

  /** One interior step of the loop: the layer `i` from the layer `i - 1`. */
  method Interior(c: Collaborators, keys: Keys, sets: Settings, t: Tables, i: nat, prev: Layer) returns (l: Layer)
    requires ValidKeys(keys, sets) && WellFormed(t) && i > 0
    requires prev == ValuesLayer(c, keys, sets, t, i - 1)
    ensures l == ValuesLayer(c, keys, sets, t, i)
  {
    l := InteriorLayer(c, keys, sets, t, prev);
  }

  /** In the last fraction: the dose the remaining budget allows, clamped to [min dose, max dose]. */
  method LastDose(c: Collaborators, keys: Keys, sets: Settings, t: Tables) returns (physicalDose: real)
    requires ValidKeys(keys, sets) && WellFormed(t) && keys.fraction == keys.numberOfFractions
    ensures physicalDose == ChosenDose(c, keys, sets, t)
  {
    var bestActions := ConvertToPhysical(c.sqrt, t.remainingBed, keys.abt);
    if bestActions < t.minDose {
      bestActions := t.minDose;
    }
    if bestActions > t.maxDose {
      bestActions := t.maxDose;
    }
    physicalDose := bestActions;
  }

  /**
   * The loop of `min_oar_bed` over the remaining fractions, from the last one
   * back to the current one: the terminal layer, the interior layers, and
   * finally the decision (or, in the last fraction, the clamped budget dose).
   */
  method Backward(c: Collaborators, keys: Keys, sets: Settings, t: Tables) returns (physicalDose: real)
    requires ValidKeys(keys, sets) && WellFormed(t)
    ensures physicalDose == ChosenDose(c, keys, sets, t)
  {
    var fraction := keys.fraction;
    var numberOfFractions := keys.numberOfFractions;
    var values := new Layer[numberOfFractions - fraction](_ => ZeroLayer(t));
    physicalDose := 0.0;
    for index := 0 to numberOfFractions - fraction + 1
      invariant forall j {:trigger values[j]} :: 0 <= j < index && j < values.Length ==> values[j] == ValuesLayer(c, keys, sets, t, j)
      invariant index == numberOfFractions - fraction + 1 ==> physicalDose == ChosenDose(c, keys, sets, t)
    {
      var fractionState := numberOfFractions - index;
      if fractionState == fraction && fraction != numberOfFractions {
        physicalDose := Decide(c, keys, sets, t, values[index - 1]);
      } else if fraction == numberOfFractions {
        physicalDose := LastDose(c, keys, sets, t);
      } else if fractionState == numberOfFractions {
        values[index] := TerminalValues(c, keys, sets, t);
      } else {
        values[index] := Interior(c, keys, sets, t, index, values[index - 1]);
      }
    }
  }

  /** `min_oar_bed`: the dose of the current fraction and its tumour and OAR BEDs. */
  method MinOarBed(c: Collaborators, keys: Keys, sets: Settings) returns (out: Outcome)
    requires ValidKeys(keys, sets)
    ensures out == MinOarBedSpec(c, keys, sets)
  {
    var t := SetUp(c, keys, sets);
    var physicalDose := Backward(c, keys, sets, t);
    var tumorDose := BedCalc0(physicalDose, keys.abt, 1.0);
    var oarDose := BedCalc0(physicalDose, keys.abn, t.actualSf);
    out := Outcome(physicalDose, tumorDose, oarDose);
  }
}
