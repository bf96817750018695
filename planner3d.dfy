/**
 * `value_eval` and `whole_plan` of the five-fraction planner that tracks the
 * tumour BED and the OAR BED together. The value table holds one layer per
 * remaining fraction; each layer is indexed [tumour state][OAR state][sparing
 * factor bin]. Layers are filled backwards from the last fraction: the last
 * fraction in closed form, every earlier one as a maximum over the action
 * space of the interpolated expected future value minus the OAR BED spent now.
 */
module Planner3D {
  import opened Wrappers
  import opened NumpyOps
  import opened Bed
  import opened Grids3D

  /** One layer of the value (or policy) table: [tumour state][OAR state][sparing-factor bin]. */
  type Layer = seq<seq<seq<real>>>

  /**
   * The grid interpolator over (tumour grid, OAR grid): knots, table of values
   * at the knots, and the query point.
   */
  type Interpolator = (seq<real>, seq<real>, seq<seq<real>>, real, real) -> real

  /** The numerical routines the planner calls but does not define. */
  datatype Collaborators = Collaborators(
    sqrt: real -> real,
    // CDF of the normal law with the given mean and deviation, truncated to [0, 1.3]
    truncatedNormalCdf: (real, real, real) -> real,
    // `std_calc(measured_data, alpha, beta)`
    stdCalc: (seq<real>, real, real) -> real,
    interpolate: Interpolator)

  /** Tissue parameters and the two BED limits. */
  datatype Patient = Patient(abt: real, abn: real, boundOar: real, boundTumor: real)

  predicate ValidPatient(p: Patient) {
    p.abt > 0.0 && p.abn > 0.0
  }

  /** No sparing-factor bin is left once improbable bins are filtered out, so `argfind` has nothing to search. */
  datatype Error = NoSparingFactorBins

  /** What `value_eval` returns. */
  datatype Plan = Plan(dose: real, accumulatedTumor: real, accumulatedOar: real, tumorBed: real, oarBed: real)

  /** Everything `value_eval` sets up before its backward sweep. */
  datatype Tables = Tables(
    sf: seq<real>,
    prob: seq<real>,
    bedt: seq<real>,
    bednt: seq<real>,
    actions: seq<real>,
    oarDose: seq<seq<real>>,    // [sf bin][action]
    tumorDose: seq<real>,       // [action]
    actualSf: nat)

  predicate WellFormed(t: Tables) {
    |t.sf| > 0 && |t.prob| == |t.sf| && (forall k :: 0 <= k < |t.sf| ==> t.sf[k] > 0.0) &&
    |t.bedt| > 0 && |t.bednt| > 0 && |t.actions| > 0 &&
    |t.oarDose| == |t.sf| && (forall k :: 0 <= k < |t.sf| ==> |t.oarDose[k]| == |t.actions|) &&
    |t.tumorDose| == |t.actions| && t.actualSf < |t.sf|
  }

  const UnderdosePenalty: real := 10.0
  const OverLimitPenalty: real := -100000000000.0

  /** Mean and deviation of the sparing-factor law: estimated from the observations, or fixed. */
  function Distribution(c: Collaborators, sfs: seq<real>, alpha: real, beta: real,
                        fixedProb: int, fixedMean: real, fixedStd: real): (real, real)
    requires |sfs| > 0
  {
    if fixedProb != 1 then (Mean(sfs), c.stdCalc(sfs, alpha, beta)) else (fixedMean, fixedStd)
  }

  /** The bin masses of the sparing-factor law before filtering. */
  function BinProbabilities(c: Collaborators, sfs: seq<real>, alpha: real, beta: real,
                            fixedProb: int, fixedMean: real, fixedStd: real): (prob: seq<real>)
    requires |sfs| > 0
    ensures |prob| == 130
  {
    var (mean, std) := Distribution(c, sfs, alpha, beta, fixedProb, fixedMean, fixedStd);
    Masses(x => c.truncatedNormalCdf(mean, std, x))
  }

  /** The set-up phase of `value_eval`: distribution, filter, grids, action space, BED tables. */
  function Setup(c: Collaborators, p: Patient, bedOar: real, bedTumor: real, sfs: seq<real>,
                 alpha: real, beta: real, fixedProb: int, fixedMean: real, fixedStd: real): (r: Result<Tables, Error>)
    requires ValidPatient(p) && |sfs| > 0
    ensures r.Failure? <==> |KeptSf(BinProbabilities(c, sfs, alpha, beta, fixedProb, fixedMean, fixedStd))| == 0
    ensures r.Success? ==> WellFormed(r.value)
  {
    var all := BinProbabilities(c, sfs, alpha, beta, fixedProb, fixedMean, fixedStd);
    var sf := KeptSf(all);
    var prob := KeptProb(all);
    FilterSpec(all);
    KeptSfPositive(all);
    if |sf| == 0 then Failure(NoSparingFactorBins)
    else
      var actions := ActionSpace();
      Success(Tables(sf, prob,
        StateGrid(bedTumor, p.boundTumor), StateGrid(bedOar, p.boundOar),
        actions,
        BedCalcMatrix(actions, p.abn, sf),
        BedCalcMatrix(actions, p.abt, [1.0])[0],
        ArgFind(sf, sfs[|sfs| - 1])))
  }

  /** A bound is already exceeded in this state. */
  predicate Over(p: Patient, tumorValue: real, oarValue: real) {
    oarValue > p.boundOar || tumorValue > p.boundTumor
  }

  /**
   * The closed-form action of the last fraction: the smaller of the dose that
   * exactly spends the OAR budget and the one that exactly spends the tumour
   * budget; 0 once a bound is exceeded; never negative.
   */
  function TerminalAction(sqrt: real -> real, p: Patient, s: real, tumorValue: real, oarValue: real): real
    requires ValidPatient(p) && s > 0.0
  {
    var byOar := BudgetDose(sqrt, s, p.abn, p.boundOar - oarValue);
    var byTumor := BudgetDose(sqrt, 1.0, p.abt, p.boundTumor - tumorValue);
    var best := if Over(p, tumorValue, oarValue) then 0.0 else if byOar <= byTumor then byOar else byTumor;
    if best < 0.0 then 0.0 else best
  }

  /** Value of the last fraction: the tumour shortfall charged ten-fold, minus the OAR BED, plus the over-limit penalty. */
  function TerminalValue(sqrt: real -> real, p: Patient, s: real, tumorValue: real, oarValue: real): real
    requires ValidPatient(p) && s > 0.0
  {
    var a := TerminalAction(sqrt, p, s, tumorValue, oarValue);
    var penalty := if Over(p, tumorValue, oarValue) then OverLimitPenalty else 0.0;
    var shortfall := tumorValue + BedCalc0(a, p.abt, 1.0) - p.boundTumor;
    (if shortfall > 0.0 then 0.0 else shortfall) * UnderdosePenalty - BedCalc0(a, p.abn, s) + penalty
  }

  /**
   * The last-fraction action is nonnegative and is 0 once a bound is exceeded.
   * Otherwise it takes neither the tumour nor the OAR beyond its bound and
   * meets at least one of the two bounds exactly.
   */
  lemma TerminalActionSpec(sqrt: real -> real, p: Patient, s: real, tumorValue: real, oarValue: real)
    requires IsSqrt(sqrt) && ValidPatient(p) && s > 0.0
    ensures var a := TerminalAction(sqrt, p, s, tumorValue, oarValue);
      a >= 0.0 && (Over(p, tumorValue, oarValue) ==> a == 0.0)
    ensures var a := TerminalAction(sqrt, p, s, tumorValue, oarValue);
      !Over(p, tumorValue, oarValue) ==>
        tumorValue + BedCalc0(a, p.abt, 1.0) <= p.boundTumor &&
        oarValue + BedCalc0(a, p.abn, s) <= p.boundOar &&
        (tumorValue + BedCalc0(a, p.abt, 1.0) == p.boundTumor || oarValue + BedCalc0(a, p.abn, s) == p.boundOar)
  {
    if !Over(p, tumorValue, oarValue) {
      var byOar := BudgetDose(sqrt, s, p.abn, p.boundOar - oarValue);
      var byTumor := BudgetDose(sqrt, 1.0, p.abt, p.boundTumor - tumorValue);
      BudgetDoseSolves(sqrt, s, p.abn, p.boundOar - oarValue);
      BudgetDoseSolves(sqrt, 1.0, p.abt, p.boundTumor - tumorValue);
      var a := TerminalAction(sqrt, p, s, tumorValue, oarValue);
      if byOar <= byTumor {
        assert a == byOar;
        BudgetDoseIsLargestAdmissible(sqrt, 1.0, p.abt, p.boundTumor - tumorValue, a);
      } else {
        assert a == byTumor;
        BudgetDoseIsLargestAdmissible(sqrt, s, p.abn, p.boundOar - oarValue, a);
      }
    }
  }

  /** The last-fraction value is never positive. */
  lemma TerminalValueNonPositive(sqrt: real -> real, p: Patient, s: real, tumorValue: real, oarValue: real)
    requires ValidPatient(p) && s > 0.0
    ensures TerminalValue(sqrt, p, s, tumorValue, oarValue) <= 0.0
    ensures Over(p, tumorValue, oarValue) ==>
      TerminalValue(sqrt, p, s, tumorValue, oarValue) <= OverLimitPenalty
  {
    var a := TerminalAction(sqrt, p, s, tumorValue, oarValue);
    BedMonotone(0.0, a, p.abn, s, s);
    BedMonotone(0.0, a, p.abt, 1.0, 1.0);
  }

  /** Shape of a layer over the tables' grids. */
  predicate IsLayer(l: Layer, t: Tables) {
    |l| == |t.bedt| &&
    (forall i :: 0 <= i < |l| ==> |l[i]| == |t.bednt|) &&
    (forall i, j :: 0 <= i < |l| && 0 <= j < |l[i]| ==> |l[i][j]| == |t.sf|)
  }

  /** `(Values[n] * prob).sum(axis=2)`: expected value of each state over the sparing-factor bins, with the unnormalised kept probabilities. */
  function Marginal(l: Layer, t: Tables): (m: seq<seq<real>>)
    requires WellFormed(t) && IsLayer(l, t)
    ensures |m| == |t.bedt| && forall i :: 0 <= i < |m| ==> |m[i]| == |t.bednt|
  {
    seq(|t.bedt|, i requires 0 <= i < |t.bedt| =>
      seq(|t.bednt|, j requires 0 <= j < |t.bednt| => WeightedSum(l[i][j], t.prob)))
  }

  /**
   * The interpolated future value of action `a` at sparing-factor bin `k`
   * from state (tumourValue, oarValue): both projected states are clamped to
   * their upper sentinel when they pass the bound.
   */
  function FutureValue(c: Collaborators, p: Patient, t: Tables, table: seq<seq<real>>,
                       tumorValue: real, oarValue: real, k: nat, a: nat): real
    requires WellFormed(t) && k < |t.sf| && a < |t.actions|
  {
    c.interpolate(t.bedt, t.bednt, table,
      Overdose(tumorValue + t.tumorDose[a], p.boundTumor, p.boundTumor + 1.0),
      Overdose(oarValue + t.oarDose[k][a], p.boundOar, p.boundOar + 1.0))
  }

  /** `Vs` for one sparing-factor bin: future value minus the OAR BED of each action. */
  function ActionValues(c: Collaborators, p: Patient, t: Tables, table: seq<seq<real>>,
                        tumorValue: real, oarValue: real, k: nat): (vs: seq<real>)
    requires WellFormed(t) && k < |t.sf|
    ensures |vs| == |t.actions|
  {
    seq(|t.actions|, a requires 0 <= a < |t.actions| =>
      FutureValue(c, p, t, table, tumorValue, oarValue, k, a) - t.oarDose[k][a])
  }

  /** One cell of a layer, a vector over the sparing-factor bins. */
  function Cell(c: Collaborators, p: Patient, t: Tables, n: nat, table: seq<seq<real>>,
                tumorValue: real, oarValue: real): (v: seq<real>)
    requires ValidPatient(p) && WellFormed(t)
    ensures |v| == |t.sf|
  {
    seq(|t.sf|, k requires 0 <= k < |t.sf| =>
      if n == 0 then TerminalValue(c.sqrt, p, t.sf[k], tumorValue, oarValue)
      else Max(ActionValues(c, p, t, table, tumorValue, oarValue, k)))
  }

  /** The policy cell beside `Cell`: ten times the dose in the last fraction, the first maximising action index before it. */
  function PolicyCell(c: Collaborators, p: Patient, t: Tables, n: nat, table: seq<seq<real>>,
                      tumorValue: real, oarValue: real): (v: seq<real>)
    requires ValidPatient(p) && WellFormed(t)
    ensures |v| == |t.sf|
  {
    seq(|t.sf|, k requires 0 <= k < |t.sf| =>
      if n == 0 then TerminalAction(c.sqrt, p, t.sf[k], tumorValue, oarValue) * 10.0
      else ArgMax(ActionValues(c, p, t, table, tumorValue, oarValue, k)) as real)
  }

  /** Layer `n` of the sweep, given the marginal table of layer `n - 1`. */
  function SweepValues(c: Collaborators, p: Patient, t: Tables, n: nat, table: seq<seq<real>>): (l: Layer)
    requires ValidPatient(p) && WellFormed(t)
    ensures IsLayer(l, t)
  {
    seq(|t.bedt|, i requires 0 <= i < |t.bedt| =>
      seq(|t.bednt|, j requires 0 <= j < |t.bednt| => Cell(c, p, t, n, table, t.bedt[i], t.bednt[j])))
  }

  function SweepPolicy(c: Collaborators, p: Patient, t: Tables, n: nat, table: seq<seq<real>>): (l: Layer)
    requires ValidPatient(p) && WellFormed(t)
    ensures IsLayer(l, t)
  {
    seq(|t.bedt|, i requires 0 <= i < |t.bedt| =>
      seq(|t.bednt|, j requires 0 <= j < |t.bednt| => PolicyCell(c, p, t, n, table, t.bedt[i], t.bednt[j])))
  }

  /** The marginal table layer `n` reads: none for the last fraction, layer `n - 1` otherwise. */
  function TableFor(c: Collaborators, p: Patient, t: Tables, n: nat): seq<seq<real>>
    requires ValidPatient(p) && WellFormed(t)
    decreases n, 0
  {
    if n == 0 then [] else Marginal(ValuesLayer(c, p, t, n - 1), t)
  }

  /** `Values[n]`: layer `n` counted from the last fraction. */
  function ValuesLayer(c: Collaborators, p: Patient, t: Tables, n: nat): (l: Layer)
    requires ValidPatient(p) && WellFormed(t)
    ensures IsLayer(l, t)
    decreases n, 1
  {
    SweepValues(c, p, t, n, TableFor(c, p, t, n))
  }

  /** `policy[n]`. */
  function PolicyLayer(c: Collaborators, p: Patient, t: Tables, n: nat): (l: Layer)
    requires ValidPatient(p) && WellFormed(t)
    ensures IsLayer(l, t)
  {
    SweepPolicy(c, p, t, n, TableFor(c, p, t, n))
  }

  /** The dose chosen for the current fraction. */
  function ChosenDose(c: Collaborators, p: Patient, t: Tables, fraction: int,
                      bedOar: real, bedTumor: real, sfEnd: real): real
    requires ValidPatient(p) && WellFormed(t) && 1 <= fraction <= 5
    requires fraction == 5 ==> sfEnd > 0.0
  {
    if fraction == 5 then TerminalAction(c.sqrt, p, sfEnd, bedTumor, bedOar)
    else
      var table := Marginal(ValuesLayer(c, p, t, 4 - fraction), t);
      ArgMax(ActionValues(c, p, t, table, bedTumor, bedOar, t.actualSf)) as real / 10.0
  }

  /** What `value_eval` computes. */
  function ValueEvalSpec(c: Collaborators, p: Patient, fraction: int, bedOar: real, bedTumor: real,
                         sfs: seq<real>, alpha: real, beta: real,
                         fixedProb: int, fixedMean: real, fixedStd: real): Result<Plan, Error>
    requires ValidPatient(p) && 1 <= fraction <= 5 && |sfs| > 0
    requires fraction == 5 ==> sfs[|sfs| - 1] > 0.0
  {
    match Setup(c, p, bedOar, bedTumor, sfs, alpha, beta, fixedProb, fixedMean, fixedStd)
    case Failure(e) => Failure(e)
    case Success(t) =>
      var sfEnd := sfs[|sfs| - 1];
      Success(PlanOf(p, ChosenDose(c, p, t, fraction, bedOar, bedTumor, sfEnd), bedOar, bedTumor, sfEnd))
  }

  /** The returned list: the dose, the accumulated BEDs, and the BEDs of this fraction alone. */
  function PlanOf(p: Patient, dose: real, bedOar: real, bedTumor: real, sfEnd: real): Plan
    requires ValidPatient(p)
  {
    Plan(dose,
      BedCalc0(dose, p.abt, 1.0) + bedTumor,
      BedCalc0(dose, p.abn, sfEnd) + bedOar,
      BedCalc0(dose, p.abt, 1.0),
      BedCalc0(dose, p.abn, sfEnd))
  }

  /** A layer of zeros, as `np.zeros` allocates it. */
  function ZeroLayer(t: Tables): (l: Layer)
    ensures IsLayer(l, t)
  {
    seq(|t.bedt|, i => seq(|t.bednt|, j => seq(|t.sf|, k => 0.0)))
  }

  /**
   * The interpolated future values of every action at every sparing-factor
   * bin from one state, filled bin by bin.
   */
  method FutureValueRows(c: Collaborators, p: Patient, t: Tables, table: seq<seq<real>>,
                         tumorValue: real, oarValue: real) returns (fv: seq<seq<real>>)
    requires WellFormed(t)
    ensures |fv| == |t.sf|
    ensures forall k :: 0 <= k < |t.sf| ==> |fv[k]| == |t.actions|
    ensures forall k, a :: 0 <= k < |t.sf| && 0 <= a < |t.actions| ==>
      fv[k][a] == FutureValue(c, p, t, table, tumorValue, oarValue, k, a)
  {
    var futureOar := seq(|t.sf|, k requires 0 <= k < |t.sf| =>
      ClampVector(seq(|t.actions|, a requires 0 <= a < |t.actions| => t.oarDose[k][a] + oarValue), p.boundOar));
    var futureTumor := ClampVector(seq(|t.actions|, a requires 0 <= a < |t.actions| => tumorValue + t.tumorDose[a]),
      p.boundTumor);
    fv := [];
    for k := 0 to |t.sf|
      invariant |fv| == k
      invariant forall k' :: 0 <= k' < k ==> |fv[k']| == |t.actions|
      invariant forall k', a :: 0 <= k' < k && 0 <= a < |t.actions| ==>
        fv[k'][a] == FutureValue(c, p, t, table, tumorValue, oarValue, k', a)
    {
      var row := seq(|t.actions|, a requires 0 <= a < |t.actions| =>
        c.interpolate(t.bedt, t.bednt, table, futureTumor[a], futureOar[k][a]));
      fv := fv + [row];
    }
  }

  /** One sweep over all tumour and OAR states, producing layer `n` of the values and of the policy. */
  method Sweep(c: Collaborators, p: Patient, t: Tables, n: nat, table: seq<seq<real>>) returns (vl: Layer, pl: Layer)
    requires ValidPatient(p) && WellFormed(t)
    ensures vl == SweepValues(c, p, t, n, table)
    ensures pl == SweepPolicy(c, p, t, n, table)
  {
    vl := [];
    pl := [];
    for i := 0 to |t.bedt|
      invariant |vl| == i && |pl| == i
      invariant forall i' :: 0 <= i' < i ==>
        vl[i'] == SweepValues(c, p, t, n, table)[i'] && pl[i'] == SweepPolicy(c, p, t, n, table)[i']
    {
      var tumorValue := t.bedt[i];
      var vrow: seq<seq<real>> := [];
      var prow: seq<seq<real>> := [];
      for j := 0 to |t.bednt|
        invariant |vrow| == j && |prow| == j
        invariant forall j' :: 0 <= j' < j ==>
          vrow[j'] == Cell(c, p, t, n, table, tumorValue, t.bednt[j']) &&
          prow[j'] == PolicyCell(c, p, t, n, table, tumorValue, t.bednt[j'])
      {
        var oarValue := t.bednt[j];
        var vcell: seq<real>;
        var pcell: seq<real>;
        if n == 0 {
          vcell := seq(|t.sf|, k requires 0 <= k < |t.sf| => TerminalValue(c.sqrt, p, t.sf[k], tumorValue, oarValue));
          pcell := seq(|t.sf|, k requires 0 <= k < |t.sf| => TerminalAction(c.sqrt, p, t.sf[k], tumorValue, oarValue) * 10.0);
        } else {
          var fv := FutureValueRows(c, p, t, table, tumorValue, oarValue);
          var vs := seq(|t.sf|, k requires 0 <= k < |t.sf| =>
            seq(|t.actions|, a requires 0 <= a < |t.actions| => fv[k][a] - t.oarDose[k][a]));
          assert forall k :: 0 <= k < |t.sf| ==> vs[k] == ActionValues(c, p, t, table, tumorValue, oarValue, k);
          vcell := seq(|t.sf|, k requires 0 <= k < |t.sf| => Max(vs[k]));
          pcell := seq(|t.sf|, k requires 0 <= k < |t.sf| => ArgMax(vs[k]) as real);
        }
        vrow := vrow + [vcell];
        prow := prow + [pcell];
      }
      vl := vl + [vrow];
      pl := pl + [prow];
    }
  }

  /** The set-up phase of `value_eval`, with `probdist` filling its buffer. */
  method SetUp(c: Collaborators, p: Patient, bedOar: real, bedTumor: real, sfs: seq<real>,
               alpha: real, beta: real, fixedProb: int, fixedMean: real, fixedStd: real) returns (r: Result<Tables, Error>)
    requires ValidPatient(p) && |sfs| > 0
    ensures r == Setup(c, p, bedOar, bedTumor, sfs, alpha, beta, fixedProb, fixedMean, fixedStd)
  {
    var mean: real;
    var std: real;
    if fixedProb != 1 {
      mean := Mean(sfs);
      std := c.stdCalc(sfs, alpha, beta);
    } else {
      mean := fixedMean;
      std := fixedStd;
    }
    var probAll := ProbDist(x => c.truncatedNormalCdf(mean, std, x));
    var all := probAll[..];
    assert all == BinProbabilities(c, sfs, alpha, beta, fixedProb, fixedMean, fixedStd);
    var sf := KeptSf(all);
    var prob := KeptProb(all);
    if |sf| == 0 {
      return Failure(NoSparingFactorBins);
    }
    var bedt := StateGrid(bedTumor, p.boundTumor);
    var bednt := StateGrid(bedOar, p.boundOar);
    var actions := ActionSpace();
    var oarDose := BedCalcMatrix(actions, p.abn, sf);
    var tumorDose := BedCalcMatrix(actions, p.abt, [1.0])[0];
    var actualSf := ArgFind(sf, sfs[|sfs| - 1]);
    r := Success(Tables(sf, prob, bedt, bednt, actions, oarDose, tumorDose, actualSf));
  }

  /** The decision for the current fraction before the last: the first action maximising `Vs` at the observed sparing factor. */
  method Decide(c: Collaborators, p: Patient, t: Tables, table: seq<seq<real>>,
                bedOar: real, bedTumor: real) returns (actualPolicy: real)
    requires WellFormed(t)
    ensures actualPolicy == ArgMax(ActionValues(c, p, t, table, bedTumor, bedOar, t.actualSf)) as real
  {
    var actions := t.actions;
    var futureOar := ClampVector(seq(|actions|, a requires 0 <= a < |actions| => bedOar + t.oarDose[t.actualSf][a]),
      p.boundOar);
    var futureTumor := ClampVector(seq(|actions|, a requires 0 <= a < |actions| => bedTumor + t.tumorDose[a]),
      p.boundTumor);
    var vs := seq(|actions|, a requires 0 <= a < |actions| =>
      c.interpolate(t.bedt, t.bednt, table, futureTumor[a], futureOar[a]) - t.oarDose[t.actualSf][a]);
    assert vs == ActionValues(c, p, t, table, bedTumor, bedOar, t.actualSf);
    actualPolicy := ArgMax(vs) as real;
  }

  /** `ValuesLayer` and `PolicyLayer` as functions of the layer number. */
  ghost function LayerFunctions(c: Collaborators, p: Patient, t: Tables): (fs: (nat -> Layer, nat -> Layer))
    requires ValidPatient(p) && WellFormed(t)
    ensures Layers(c, p, t, fs.0, fs.1)
  {
    ((n: nat) => ValuesLayer(c, p, t, n), (n: nat) => PolicyLayer(c, p, t, n))
  }

  /** `values` and `policy` give every layer of the backward induction. */
  ghost predicate Layers(c: Collaborators, p: Patient, t: Tables, values: nat -> Layer, policy: nat -> Layer)
    requires ValidPatient(p) && WellFormed(t)
  {
    forall n: nat {:trigger ValuesLayer(c, p, t, n)} ::
      values(n) == ValuesLayer(c, p, t, n) && policy(n) == PolicyLayer(c, p, t, n)
  }

  /**
   * The backward loop of `value_eval`: `Values` and `policy` hold one layer per
   * fraction after the current one, written from the last fraction backwards;
   * the loop ends with the policy entry (ten times the dose) of the current
   * fraction. The ghost `layers` name the layers the loop writes.
   */
  method Backward(c: Collaborators, p: Patient, t: Tables, fraction: int,
                  bedOar: real, bedTumor: real, sfEnd: real, ghost layers: (nat -> Layer, nat -> Layer))
      returns (actualPolicy: real)
    requires ValidPatient(p) && WellFormed(t) && 1 <= fraction <= 5
    requires fraction == 5 ==> sfEnd > 0.0
    requires Layers(c, p, t, layers.0, layers.1)
    ensures actualPolicy == ChosenDose(c, p, t, fraction, bedOar, bedTumor, sfEnd) * 10.0
  {
    var values := new Layer[5 - fraction](_ => ZeroLayer(t));
    var policy := new Layer[5 - fraction](_ => ZeroLayer(t));
    actualPolicy := 0.0;
    for index := 0 to 6 - fraction
      invariant forall n :: 0 <= n < index && n < 5 - fraction ==>
        values[n] == layers.0(n) && policy[n] == layers.1(n)
      invariant index == 6 - fraction ==>
        actualPolicy == ChosenDose(c, p, t, fraction, bedOar, bedTumor, sfEnd) * 10.0
    {
      var fracState := 5 - index;
      if fracState == 1 || (fracState == fraction && fraction != 5) {
        actualPolicy := DecideCurrent(c, p, t, fraction, values[index - 1], bedOar, bedTumor, sfEnd, layers);
      } else if fracState == fraction {
        var best := TerminalAction(c.sqrt, p, sfEnd, bedTumor, bedOar);
        actualPolicy := best * 10.0;
      } else {
        var vl, pl := SweepLayer(c, p, t, index, if index > 0 then values[index - 1] else ZeroLayer(t), layers);
        values[index] := vl;
        policy[index] := pl;
      }
    }
  }

  /** The decision branch of the backward loop, reached at the current fraction when it is not the last. */
  method DecideCurrent(c: Collaborators, p: Patient, t: Tables, fraction: int, previous: Layer,
                       bedOar: real, bedTumor: real, sfEnd: real, ghost layers: (nat -> Layer, nat -> Layer))
      returns (actualPolicy: real)
    requires ValidPatient(p) && WellFormed(t) && 1 <= fraction < 5
    requires Layers(c, p, t, layers.0, layers.1) && previous == layers.0(4 - fraction)
    ensures actualPolicy == ChosenDose(c, p, t, fraction, bedOar, bedTumor, sfEnd) * 10.0
  {
    ghost var spec := ValuesLayer(c, p, t, 4 - fraction);
    actualPolicy := Decide(c, p, t, Marginal(previous, t), bedOar, bedTumor);
  }

  /** The sweep branch of the backward loop: layer `index`, interpolating layer `index - 1` when there is one. */
  method SweepLayer(c: Collaborators, p: Patient, t: Tables, index: nat, previous: Layer,
                    ghost layers: (nat -> Layer, nat -> Layer)) returns (vl: Layer, pl: Layer)
    requires ValidPatient(p) && WellFormed(t)
    requires Layers(c, p, t, layers.0, layers.1)
    requires index > 0 ==> previous == layers.0(index - 1)
    ensures vl == layers.0(index) && pl == layers.1(index)
  {
    ghost var spec := ValuesLayer(c, p, t, index);
    var table: seq<seq<real>> := [];
    if index > 0 {
      ghost var prior := ValuesLayer(c, p, t, index - 1);
      table := Marginal(previous, t);
    }
    vl, pl := Sweep(c, p, t, index, table);
  }

  /**
   * `value_eval`: the dose for `fraction` and the BEDs it adds, accumulated
   * onto the BEDs received so far.
   */
  method ValueEval(c: Collaborators, p: Patient, fraction: int, bedOar: real, bedTumor: real,
                   sfs: seq<real>, alpha: real, beta: real,
                   fixedProb: int, fixedMean: real, fixedStd: real) returns (r: Result<Plan, Error>)
    requires ValidPatient(p) && 1 <= fraction <= 5 && |sfs| > 0
    requires fraction == 5 ==> sfs[|sfs| - 1] > 0.0
    ensures r == ValueEvalSpec(c, p, fraction, bedOar, bedTumor, sfs, alpha, beta, fixedProb, fixedMean, fixedStd)
  {
    var tables := SetUp(c, p, bedOar, bedTumor, sfs, alpha, beta, fixedProb, fixedMean, fixedStd);
    if tables.Failure? {
      return Failure(tables.error);
    }
    var sfEnd := sfs[|sfs| - 1];
    ghost var layers := LayerFunctions(c, p, tables.value);
    var actualPolicy := Backward(c, p, tables.value, fraction, bedOar, bedTumor, sfEnd, layers);
    var dose := actualPolicy / 10.0;
    assert dose == ChosenDose(c, p, tables.value, fraction, bedOar, bedTumor, sfEnd);
    r := Success(PlanOf(p, dose, bedOar, bedTumor, sfEnd));
  }

  /**
   * Every cell of an earlier layer is, per sparing-factor bin, the maximum over
   * the action space of future value minus OAR BED, and its policy entry is the
   * first action reaching that maximum.
   */
  lemma InteriorLayerSpec(c: Collaborators, p: Patient, t: Tables, n: nat, i: nat, j: nat, k: nat)
    requires ValidPatient(p) && WellFormed(t) && n > 0
    requires i < |t.bedt| && j < |t.bednt| && k < |t.sf|
    ensures var vs := ActionValues(c, p, t, TableFor(c, p, t, n), t.bedt[i], t.bednt[j], k);
      forall b :: 0 <= b < |vs| ==> vs[b] <= ValuesLayer(c, p, t, n)[i][j][k]
    ensures var vs := ActionValues(c, p, t, TableFor(c, p, t, n), t.bedt[i], t.bednt[j], k);
      var v := ValuesLayer(c, p, t, n)[i][j][k];
      exists b :: 0 <= b < |vs| && PolicyLayer(c, p, t, n)[i][j][k] == b as real && vs[b] == v &&
        forall b' :: 0 <= b' < b ==> vs[b'] < v
  {
    var vs := ActionValues(c, p, t, TableFor(c, p, t, n), t.bedt[i], t.bednt[j], k);
    var b := ArgMax(vs);
    var v := ValuesLayer(c, p, t, n)[i][j][k];
    assert v == Max(vs) == vs[b];
    assert PolicyLayer(c, p, t, n)[i][j][k] == b as real;
    assert 0 <= b < |vs| && vs[b] == v && forall b' :: 0 <= b' < b ==> vs[b'] < v;
  }

  /**
   * Every cell of the last-fraction layer holds the closed-form value, which is
   * never positive, and its policy entry is ten times the closed-form action.
   */
  lemma TerminalLayerSpec(c: Collaborators, p: Patient, t: Tables, i: nat, j: nat, k: nat)
    requires ValidPatient(p) && WellFormed(t)
    requires i < |t.bedt| && j < |t.bednt| && k < |t.sf|
    ensures ValuesLayer(c, p, t, 0)[i][j][k] == TerminalValue(c.sqrt, p, t.sf[k], t.bedt[i], t.bednt[j])
    ensures ValuesLayer(c, p, t, 0)[i][j][k] <= 0.0
    ensures PolicyLayer(c, p, t, 0)[i][j][k] == 10.0 * TerminalAction(c.sqrt, p, t.sf[k], t.bedt[i], t.bednt[j])
  {
    TerminalValueNonPositive(c.sqrt, p, t.sf[k], t.bedt[i], t.bednt[j]);
  }

  /** The grids, action space and BED tables `Setup` builds. */
  lemma SetupShape(c: Collaborators, p: Patient, bedOar: real, bedTumor: real, sfs: seq<real>,
                   alpha: real, beta: real, fixedProb: int, fixedMean: real, fixedStd: real, t: Tables)
    requires ValidPatient(p) && |sfs| > 0
    requires Setup(c, p, bedOar, bedTumor, sfs, alpha, beta, fixedProb, fixedMean, fixedStd) == Success(t)
    ensures WellFormed(t)
    ensures t.bedt == StateGrid(bedTumor, p.boundTumor) && t.bednt == StateGrid(bedOar, p.boundOar)
    ensures t.actions == ActionSpace()
    ensures forall a :: 0 <= a < |t.actions| ==> t.tumorDose[a] == BedCalc0(t.actions[a], p.abt, 1.0)
    ensures forall k, a :: 0 <= k < |t.sf| && 0 <= a < |t.actions| ==>
      t.oarDose[k][a] == BedCalc0(t.actions[a], p.abn, t.sf[k])
  {
  }

  /**
   * Every interpolation query stays inside the grids: a projected state that
   * starts at or above a grid's first point is either clamped to the upper
   * sentinel or lies between the first point and the sentinel. The current
   * accumulated BEDs and every grid point are such starting points.
   */
  lemma QueriesInGrid(c: Collaborators, p: Patient, bedOar: real, bedTumor: real, sfs: seq<real>,
                      alpha: real, beta: real, fixedProb: int, fixedMean: real, fixedStd: real,
                      t: Tables, tumorValue: real, oarValue: real, k: nat, a: nat)
    requires ValidPatient(p) && |sfs| > 0
    requires Setup(c, p, bedOar, bedTumor, sfs, alpha, beta, fixedProb, fixedMean, fixedStd) == Success(t)
    requires tumorValue >= t.bedt[0] && oarValue >= t.bednt[0]
    requires k < |t.sf| && a < |t.actions|
    ensures bedTumor >= t.bedt[0] && bedOar >= t.bednt[0]
    ensures forall i :: 0 <= i < |t.bedt| ==> t.bedt[i] >= t.bedt[0]
    ensures forall j :: 0 <= j < |t.bednt| ==> t.bednt[j] >= t.bednt[0]
    ensures t.bedt[0] <= Overdose(tumorValue + t.tumorDose[a], p.boundTumor, p.boundTumor + 1.0) <= t.bedt[|t.bedt| - 1]
    ensures t.bednt[0] <= Overdose(oarValue + t.oarDose[k][a], p.boundOar, p.boundOar + 1.0) <= t.bednt[|t.bednt| - 1]
  {
    SetupShape(c, p, bedOar, bedTumor, sfs, alpha, beta, fixedProb, fixedMean, fixedStd, t);
    TablesQuery(p, t, bedOar, bedTumor, tumorValue, oarValue, k, a);
  }

  /** `QueriesInGrid` for tables of the shape `Setup` builds. */
  lemma TablesQuery(p: Patient, t: Tables, bedOar: real, bedTumor: real, tumorValue: real, oarValue: real, k: nat, a: nat)
    requires ValidPatient(p) && WellFormed(t)
    requires t.bedt == StateGrid(bedTumor, p.boundTumor) && t.bednt == StateGrid(bedOar, p.boundOar)
    requires t.actions == ActionSpace()
    requires forall a :: 0 <= a < |t.actions| ==> t.tumorDose[a] == BedCalc0(t.actions[a], p.abt, 1.0)
    requires forall k, a :: 0 <= k < |t.sf| && 0 <= a < |t.actions| ==>
      t.oarDose[k][a] == BedCalc0(t.actions[a], p.abn, t.sf[k])
    requires tumorValue >= t.bedt[0] && oarValue >= t.bednt[0]
    requires k < |t.sf| && a < |t.actions|
    ensures bedTumor >= t.bedt[0] && bedOar >= t.bednt[0]
    ensures forall i :: 0 <= i < |t.bedt| ==> t.bedt[i] >= t.bedt[0]
    ensures forall j :: 0 <= j < |t.bednt| ==> t.bednt[j] >= t.bednt[0]
    ensures t.bedt[0] <= Overdose(tumorValue + t.tumorDose[a], p.boundTumor, p.boundTumor + 1.0) <= t.bedt[|t.bedt| - 1]
    ensures t.bednt[0] <= Overdose(oarValue + t.oarDose[k][a], p.boundOar, p.boundOar + 1.0) <= t.bednt[|t.bednt| - 1]
  {
    BedMonotone(0.0, t.actions[a], p.abt, 1.0, 1.0);
    BedMonotone(0.0, t.actions[a], p.abn, t.sf[k], t.sf[k]);
    GridQuery(bedTumor, p.boundTumor, tumorValue, t.tumorDose[a]);
    GridQuery(bedOar, p.boundOar, oarValue, t.oarDose[k][a]);
  }

  /**
   * One grid of `QueriesInGrid`: its starting point and every grid point are
   * at or above its first point, and a nonnegative step from such a point
   * lands, after the overdose clamp, inside the grid.
   */
  lemma GridQuery(start: real, bound: real, value: real, step: real)
    requires value >= StateGrid(start, bound)[0] && step >= 0.0
    ensures var g := StateGrid(start, bound);
      start >= g[0] && (forall i :: 0 <= i < |g| ==> g[i] >= g[0]) &&
      g[0] <= Overdose(value + step, bound, bound + 1.0) <= g[|g| - 1]
  {
    StateGridShape(start, bound);
    ClampedQueryInGrid(start, bound, value + step);
  }

  /**
   * The returned BEDs are the previous ones plus this fraction's. Before the
   * last fraction the dose is a point of the action space; in the last
   * fraction it is nonnegative and, unless a bound was already exceeded,
   * keeps both accumulated BEDs within their bounds.
   */
  lemma ValueEvalDose(c: Collaborators, p: Patient, fraction: int, bedOar: real, bedTumor: real,
                      sfs: seq<real>, alpha: real, beta: real,
                      fixedProb: int, fixedMean: real, fixedStd: real)
    requires ValidPatient(p) && 1 <= fraction <= 5 && |sfs| > 0
    requires fraction == 5 ==> sfs[|sfs| - 1] > 0.0
    requires ValueEvalSpec(c, p, fraction, bedOar, bedTumor, sfs, alpha, beta, fixedProb, fixedMean, fixedStd).Success?
    ensures var pl := ValueEvalSpec(c, p, fraction, bedOar, bedTumor, sfs, alpha, beta, fixedProb, fixedMean, fixedStd).value;
      pl.accumulatedTumor == bedTumor + pl.tumorBed && pl.accumulatedOar == bedOar + pl.oarBed &&
      pl.tumorBed == BedCalc0(pl.dose, p.abt, 1.0) && pl.oarBed == BedCalc0(pl.dose, p.abn, sfs[|sfs| - 1])
    ensures var pl := ValueEvalSpec(c, p, fraction, bedOar, bedTumor, sfs, alpha, beta, fixedProb, fixedMean, fixedStd).value;
      fraction < 5 ==> exists a :: 0 <= a < |ActionSpace()| && pl.dose == ActionSpace()[a]
    ensures var pl := ValueEvalSpec(c, p, fraction, bedOar, bedTumor, sfs, alpha, beta, fixedProb, fixedMean, fixedStd).value;
      fraction == 5 && IsSqrt(c.sqrt) ==>
        pl.dose >= 0.0 &&
        (!Over(p, bedTumor, bedOar) ==> pl.accumulatedTumor <= p.boundTumor && pl.accumulatedOar <= p.boundOar)
  {
    var t := Setup(c, p, bedOar, bedTumor, sfs, alpha, beta, fixedProb, fixedMean, fixedStd).value;
    var sfEnd := sfs[|sfs| - 1];
    var d := ChosenDose(c, p, t, fraction, bedOar, bedTumor, sfEnd);
    if fraction < 5 {
      var table := Marginal(ValuesLayer(c, p, t, 4 - fraction), t);
      var b := ArgMax(ActionValues(c, p, t, table, bedTumor, bedOar, t.actualSf));
      assert t.actions == ActionSpace();
      assert d == ActionSpace()[b];
    } else if IsSqrt(c.sqrt) {
      TerminalActionSpec(c.sqrt, p, sfEnd, bedTumor, bedOar);
    }
  }

  /** Python's slice `sfs[0:n]`, which stops at the end of the list. */
  function Prefix(sfs: seq<real>, n: nat): (r: seq<real>)
    ensures |r| == (if n <= |sfs| then n else |sfs|)
    ensures forall i :: 0 <= i < |r| ==> r[i] == sfs[i]
  {
    if n <= |sfs| then sfs[..n] else sfs
  }

  /**
   * The only sparing factor `whole_plan` divides by: the last one of
   * `sparing_factors[0:6]`, which the fifth call uses in closed form.
   */
  predicate LastCallFactorPositive(sfs: seq<real>) {
    |sfs| > 0 && sfs[if |sfs| >= 6 then 5 else |sfs| - 1] > 0.0
  }

  /** The fifth call of the driver sees a positive last sparing factor. */
  lemma LastCallFactor(sfs: seq<real>)
    requires LastCallFactorPositive(sfs)
    ensures var pre := Prefix(sfs, 6); |pre| > 0 && pre[|pre| - 1] > 0.0
  {
  }

  /** The `k`-th call of the driver (0-based), given the accumulated OAR and tumour BEDs it is passed. */
  type Step = (nat, real, real) --> Result<Plan, Error>

  ghost predicate Callable(step: Step) {
    forall k: nat, accOar: real, accTumor: real :: k < 5 ==> step.requires(k, accOar, accTumor)
  }

  /**
   * The calls from the `k`-th on: each one is passed the accumulated BEDs the
   * previous one returned, and the first error ends the run.
   */
  function Thread(step: Step, k: nat, accOar: real, accTumor: real): (r: Result<seq<Plan>, Error>)
    requires Callable(step) && k <= 5
    ensures r.Success? ==> |r.value| == 5 - k
    decreases 5 - k
  {
    if k == 5 then Success([])
    else
      match step(k, accOar, accTumor)
      case Failure(e) => Failure(e)
      case Success(pl) =>
        match Thread(step, k + 1, pl.accumulatedOar, pl.accumulatedTumor)
        case Failure(e) => Failure(e)
        case Success(rest) => Success([pl] + rest)
  }

  /** The calls `whole_plan` makes: call `k` is `value_eval` for fraction `k + 1` with the first `k + 2` sparing factors. */
  function Calls(c: Collaborators, p: Patient, sfs: seq<real>, alpha: real, beta: real,
                 fixedProb: int, fixedMean: real, fixedStd: real): (step: Step)
    requires ValidPatient(p) && LastCallFactorPositive(sfs)
    ensures Callable(step)
  {
    (k: nat, accOar: real, accTumor: real) requires k < 5 =>
      CallSpec(c, p, sfs, alpha, beta, fixedProb, fixedMean, fixedStd, k, accOar, accTumor)
  }

  /** Call `k` of the driver: `value_eval` for fraction `k + 1` on the first `k + 2` sparing factors. */
  function CallSpec(c: Collaborators, p: Patient, sfs: seq<real>, alpha: real, beta: real,
                    fixedProb: int, fixedMean: real, fixedStd: real, k: nat, accOar: real, accTumor: real): Result<Plan, Error>
    requires ValidPatient(p) && LastCallFactorPositive(sfs) && k < 5
  {
    ValueEvalSpec(c, p, k + 1, accOar, accTumor, Prefix(sfs, k + 2), alpha, beta, fixedProb, fixedMean, fixedStd)
  }

  /** `step` makes the calls of the driver. */
  ghost predicate Runs(step: Step, c: Collaborators, p: Patient, sfs: seq<real>, alpha: real, beta: real,
                       fixedProb: int, fixedMean: real, fixedStd: real)
    requires ValidPatient(p) && LastCallFactorPositive(sfs) && Callable(step)
  {
    forall k: nat, accOar: real, accTumor: real
      {:trigger CallSpec(c, p, sfs, alpha, beta, fixedProb, fixedMean, fixedStd, k, accOar, accTumor)} ::
      k < 5 ==> step(k, accOar, accTumor) == CallSpec(c, p, sfs, alpha, beta, fixedProb, fixedMean, fixedStd, k, accOar, accTumor)
  }

  /** What `whole_plan` computes: the five plans, starting from zero accumulated BED. */
  function WholePlanSpec(c: Collaborators, p: Patient, sfs: seq<real>, alpha: real, beta: real,
                         fixedProb: int, fixedMean: real, fixedStd: real): (r: Result<seq<Plan>, Error>)
    requires ValidPatient(p) && LastCallFactorPositive(sfs)
    ensures r.Success? ==> |r.value| == 5
  {
    Thread(Calls(c, p, sfs, alpha, beta, fixedProb, fixedMean, fixedStd), 0, 0.0, 0.0)
  }

  function TumorBeds(ps: seq<Plan>): (r: seq<real>)
    ensures |r| == |ps| && forall j :: 0 <= j < |ps| ==> r[j] == ps[j].tumorBed
  {
    seq(|ps|, j requires 0 <= j < |ps| => ps[j].tumorBed)
  }

  function OarBeds(ps: seq<Plan>): (r: seq<real>)
    ensures |r| == |ps| && forall j :: 0 <= j < |ps| ==> r[j] == ps[j].oarBed
  {
    seq(|ps|, j requires 0 <= j < |ps| => ps[j].oarBed)
  }

  function PhysicalDoses(ps: seq<Plan>): (r: seq<real>)
    ensures |r| == |ps| && forall j :: 0 <= j < |ps| ==> r[j] == ps[j].dose
  {
    seq(|ps|, j requires 0 <= j < |ps| => ps[j].dose)
  }

  /** One step of the run: the first call, then the run from the next call on its accumulated BEDs. */
  lemma ThreadStep(step: Step, k: nat, accOar: real, accTumor: real)
    requires Callable(step) && k < 5
    ensures var first := step(k, accOar, accTumor);
      var run := Thread(step, k, accOar, accTumor);
      (first.Failure? ==> run.Failure?) &&
      (first.Success? ==>
        var rest := Thread(step, k + 1, first.value.accumulatedOar, first.value.accumulatedTumor);
        (run.Success? <==> rest.Success?) &&
        (run.Success? ==> run.value == [first.value] + rest.value))
  {
  }

  /** Each call returns the BEDs it was passed plus the BEDs of its own fraction. */
  ghost predicate Accumulates(step: Step) {
    forall k: nat, accOar: real, accTumor: real ::
      k < 5 && step.requires(k, accOar, accTumor) && step(k, accOar, accTumor).Success? ==>
        step(k, accOar, accTumor).value.accumulatedTumor == accTumor + step(k, accOar, accTumor).value.tumorBed &&
        step(k, accOar, accTumor).value.accumulatedOar == accOar + step(k, accOar, accTumor).value.oarBed
  }

  /**
   * Each plan of a run starts from the accumulated BEDs of the plan before it
   * (the first one from the BEDs the run was given) and adds its own BEDs.
   */
  predicate Chained(ps: seq<Plan>, accOar: real, accTumor: real) {
    (|ps| > 0 ==>
      ps[0].accumulatedTumor == accTumor + ps[0].tumorBed &&
      ps[0].accumulatedOar == accOar + ps[0].oarBed) &&
    forall j :: 0 < j < |ps| ==>
      ps[j].accumulatedTumor == ps[j - 1].accumulatedTumor + ps[j].tumorBed &&
      ps[j].accumulatedOar == ps[j - 1].accumulatedOar + ps[j].oarBed
  }

  /** Threading the accumulated BEDs through calls that each add their own BEDs chains the plans. */
  lemma {:induction false} ThreadChains(step: Step, k: nat, accOar: real, accTumor: real)
    requires Callable(step) && Accumulates(step) && k <= 5
    requires Thread(step, k, accOar, accTumor).Success?
    ensures Chained(Thread(step, k, accOar, accTumor).value, accOar, accTumor)
    decreases 5 - k
  {
    if k < 5 {
      ThreadStep(step, k, accOar, accTumor);
      var pl := step(k, accOar, accTumor).value;
      ThreadChains(step, k + 1, pl.accumulatedOar, pl.accumulatedTumor);
    }
  }

  /** In a chain, the accumulated BEDs are the starting BEDs plus the sums of the BEDs so far. */
  lemma {:induction false} ChainedSums(ps: seq<Plan>, accOar: real, accTumor: real)
    requires Chained(ps, accOar, accTumor)
    ensures forall j :: 0 <= j < |ps| ==>
      ps[j].accumulatedTumor == accTumor + Sum(TumorBeds(ps)[..j + 1]) &&
      ps[j].accumulatedOar == accOar + Sum(OarBeds(ps)[..j + 1])
  {
    forall j | 0 <= j < |ps|
      ensures ps[j].accumulatedTumor == accTumor + Sum(TumorBeds(ps)[..j + 1])
      ensures ps[j].accumulatedOar == accOar + Sum(OarBeds(ps)[..j + 1])
    {
      ChainedPrefix(ps, accOar, accTumor, j);
    }
  }

  lemma {:induction false} ChainedPrefix(ps: seq<Plan>, accOar: real, accTumor: real, j: nat)
    requires Chained(ps, accOar, accTumor) && j < |ps|
    ensures ps[j].accumulatedTumor == accTumor + Sum(TumorBeds(ps)[..j + 1])
    ensures ps[j].accumulatedOar == accOar + Sum(OarBeds(ps)[..j + 1])
  {
    if j > 0 {
      ChainedPrefix(ps, accOar, accTumor, j - 1);
      assert TumorBeds(ps)[..j + 1][..j] == TumorBeds(ps)[..j];
      assert OarBeds(ps)[..j + 1][..j] == OarBeds(ps)[..j];
    }
  }

  /** Every call of `value_eval` the driver makes adds its own BEDs to the ones it is passed. */
  lemma CallsAccumulate(c: Collaborators, p: Patient, sfs: seq<real>, alpha: real, beta: real,
                        fixedProb: int, fixedMean: real, fixedStd: real)
    requires ValidPatient(p) && LastCallFactorPositive(sfs)
    ensures Accumulates(Calls(c, p, sfs, alpha, beta, fixedProb, fixedMean, fixedStd))
  {
    var step := Calls(c, p, sfs, alpha, beta, fixedProb, fixedMean, fixedStd);
    forall k: nat, accOar: real, accTumor: real | k < 5 && step(k, accOar, accTumor).Success?
      ensures step(k, accOar, accTumor).value.accumulatedTumor == accTumor + step(k, accOar, accTumor).value.tumorBed
      ensures step(k, accOar, accTumor).value.accumulatedOar == accOar + step(k, accOar, accTumor).value.oarBed
    {
      ValueEvalDose(c, p, k + 1, accOar, accTumor, Prefix(sfs, k + 2), alpha, beta, fixedProb, fixedMean, fixedStd);
    }
  }

  /**
   * In the plan `whole_plan` returns, the accumulated BEDs after fraction
   * `j + 1` are the sums of the BEDs of fractions 1 to `j + 1`.
   */
  lemma WholePlanAccumulates(c: Collaborators, p: Patient, sfs: seq<real>, alpha: real, beta: real,
                             fixedProb: int, fixedMean: real, fixedStd: real)
    requires ValidPatient(p) && LastCallFactorPositive(sfs)
    requires WholePlanSpec(c, p, sfs, alpha, beta, fixedProb, fixedMean, fixedStd).Success?
    ensures var ps := WholePlanSpec(c, p, sfs, alpha, beta, fixedProb, fixedMean, fixedStd).value;
      forall j :: 0 <= j < 5 ==>
        ps[j].accumulatedTumor == Sum(TumorBeds(ps)[..j + 1]) &&
        ps[j].accumulatedOar == Sum(OarBeds(ps)[..j + 1])
  {
    CallsAccumulate(c, p, sfs, alpha, beta, fixedProb, fixedMean, fixedStd);
    RunAccumulates(Calls(c, p, sfs, alpha, beta, fixedProb, fixedMean, fixedStd));
  }

  /** A run from zero of calls that each add their own BEDs accumulates the sums of the BEDs so far. */
  lemma RunAccumulates(step: Step)
    requires Callable(step) && Accumulates(step)
    requires Thread(step, 0, 0.0, 0.0).Success?
    ensures var ps := Thread(step, 0, 0.0, 0.0).value;
      forall j :: 0 <= j < |ps| ==>
        ps[j].accumulatedTumor == Sum(TumorBeds(ps)[..j + 1]) &&
        ps[j].accumulatedOar == Sum(OarBeds(ps)[..j + 1])
  {
    ThreadChains(step, 0, 0.0, 0.0);
    ChainedSums(Thread(step, 0, 0.0, 0.0).value, 0.0, 0.0);
  }

  /** The last call of a run of five is passed the accumulated BEDs of the fourth. */
  lemma ThreadLast(step: Step, accOar: real, accTumor: real)
    requires Callable(step)
    requires Thread(step, 0, accOar, accTumor).Success?
    ensures var ps := Thread(step, 0, accOar, accTumor).value;
      step(4, ps[3].accumulatedOar, ps[3].accumulatedTumor) == Success(ps[4])
  {
    var ps := Thread(step, 0, accOar, accTumor).value;
    var o, t := accOar, accTumor;
    for k := 0 to 4
      invariant Thread(step, k, o, t).Success? && Thread(step, k, o, t).value == ps[k..]
      invariant k > 0 ==> o == ps[k - 1].accumulatedOar && t == ps[k - 1].accumulatedTumor
    {
      ThreadStep(step, k, o, t);
      var pl := step(k, o, t).value;
      assert ps[k..] == [pl] + ps[k + 1..];
      o, t := pl.accumulatedOar, pl.accumulatedTumor;
    }
    ThreadStep(step, 4, o, t);
  }

  /**
   * Whole-plan safety: the last fraction never takes the tumour or the OAR
   * beyond its bound unless a bound was already exceeded after the fourth.
   */
  lemma LastFractionWithinBounds(c: Collaborators, p: Patient, sfs: seq<real>, alpha: real, beta: real,
                                 fixedProb: int, fixedMean: real, fixedStd: real)
    requires IsSqrt(c.sqrt) && ValidPatient(p) && LastCallFactorPositive(sfs)
    requires WholePlanSpec(c, p, sfs, alpha, beta, fixedProb, fixedMean, fixedStd).Success?
    ensures var ps := WholePlanSpec(c, p, sfs, alpha, beta, fixedProb, fixedMean, fixedStd).value;
      !Over(p, ps[3].accumulatedTumor, ps[3].accumulatedOar) ==>
        ps[4].accumulatedTumor <= p.boundTumor && ps[4].accumulatedOar <= p.boundOar && ps[4].dose >= 0.0
  {
    CallsLastSafe(c, p, sfs, alpha, beta, fixedProb, fixedMean, fixedStd);
    RunLastSafe(Calls(c, p, sfs, alpha, beta, fixedProb, fixedMean, fixedStd), p);
  }

  /**
   * The fifth call of `step`, when it succeeds from BEDs within both bounds,
   * returns a nonnegative dose that keeps both bounds.
   */
  ghost predicate LastSafe(step: Step, p: Patient)
    requires Callable(step)
  {
    forall accOar: real, accTumor: real {:trigger step(4, accOar, accTumor)} ::
      step(4, accOar, accTumor).Success? && !Over(p, accTumor, accOar) ==>
        step(4, accOar, accTumor).value.accumulatedTumor <= p.boundTumor &&
        step(4, accOar, accTumor).value.accumulatedOar <= p.boundOar &&
        step(4, accOar, accTumor).value.dose >= 0.0
  }

  /** The fifth call the driver makes is safe. */
  lemma CallsLastSafe(c: Collaborators, p: Patient, sfs: seq<real>, alpha: real, beta: real,
                      fixedProb: int, fixedMean: real, fixedStd: real)
    requires IsSqrt(c.sqrt) && ValidPatient(p) && LastCallFactorPositive(sfs)
    ensures LastSafe(Calls(c, p, sfs, alpha, beta, fixedProb, fixedMean, fixedStd), p)
  {
    var step := Calls(c, p, sfs, alpha, beta, fixedProb, fixedMean, fixedStd);
    LastCallFactor(sfs);
    forall accOar: real, accTumor: real | step(4, accOar, accTumor).Success? && !Over(p, accTumor, accOar)
      ensures step(4, accOar, accTumor).value.accumulatedTumor <= p.boundTumor
      ensures step(4, accOar, accTumor).value.accumulatedOar <= p.boundOar
      ensures step(4, accOar, accTumor).value.dose >= 0.0
    {
      ValueEvalDose(c, p, 5, accOar, accTumor, Prefix(sfs, 6), alpha, beta, fixedProb, fixedMean, fixedStd);
    }
  }

  /** In a run of safe calls, the last one keeps both bounds unless the fourth already broke one. */
  lemma RunLastSafe(step: Step, p: Patient)
    requires Callable(step) && LastSafe(step, p)
    requires Thread(step, 0, 0.0, 0.0).Success?
    ensures var ps := Thread(step, 0, 0.0, 0.0).value;
      !Over(p, ps[3].accumulatedTumor, ps[3].accumulatedOar) ==>
        ps[4].accumulatedTumor <= p.boundTumor && ps[4].accumulatedOar <= p.boundOar && ps[4].dose >= 0.0
  {
    var ps := Thread(step, 0, 0.0, 0.0).value;
    ThreadLast(step, 0.0, 0.0);
    assert step(4, ps[3].accumulatedOar, ps[3].accumulatedTumor) == Success(ps[4]);
  }

  /** The accumulated BEDs the call after the first `j` plans of `ps` is passed. */
  function PrevOar(ps: seq<Plan>, j: nat, accOar: real): real
    requires j <= |ps|
  {
    if j == 0 then accOar else ps[j - 1].accumulatedOar
  }

  function PrevTumor(ps: seq<Plan>, j: nat, accTumor: real): real
    requires j <= |ps|
  {
    if j == 0 then accTumor else ps[j - 1].accumulatedTumor
  }

  /** `ps` is what the calls from the `k`-th on return, threading the accumulated BEDs. */
  ghost predicate Produced(step: Step, k: nat, ps: seq<Plan>, accOar: real, accTumor: real)
    requires Callable(step)
  {
    k + |ps| <= 5 &&
    forall j :: 0 <= j < |ps| ==>
      step(k + j, PrevOar(ps, j, accOar), PrevTumor(ps, j, accTumor)) == Success(ps[j])
  }

  lemma ProducedExtend(step: Step, k: nat, ps: seq<Plan>, accOar: real, accTumor: real, pl: Plan)
    requires Callable(step) && Produced(step, k, ps, accOar, accTumor) && k + |ps| < 5
    requires step(k + |ps|, PrevOar(ps, |ps|, accOar), PrevTumor(ps, |ps|, accTumor)) == Success(pl)
    ensures Produced(step, k, ps + [pl], accOar, accTumor)
  {
    var qs := ps + [pl];
    forall j | 0 <= j < |qs|
      ensures step(k + j, PrevOar(qs, j, accOar), PrevTumor(qs, j, accTumor)) == Success(qs[j])
    {
      if j < |ps| {
        assert PrevOar(qs, j, accOar) == PrevOar(ps, j, accOar);
        assert PrevTumor(qs, j, accTumor) == PrevTumor(ps, j, accTumor);
      }
    }
  }

  /** Calls that produced all of `ps` up to the last one make the run return `ps`. */
  lemma {:induction false} ProducedRun(step: Step, k: nat, ps: seq<Plan>, accOar: real, accTumor: real)
    requires Callable(step) && Produced(step, k, ps, accOar, accTumor) && k + |ps| == 5
    ensures Thread(step, k, accOar, accTumor) == Success(ps)
    decreases 5 - k
  {
    if k < 5 {
      assert step(k, accOar, accTumor) == Success(ps[0]);
      var pl := ps[0];
      var rest := ps[1..];
      forall j | 0 <= j < |rest|
        ensures step(k + 1 + j, PrevOar(rest, j, pl.accumulatedOar), PrevTumor(rest, j, pl.accumulatedTumor)) == Success(rest[j])
      {
        assert PrevOar(rest, j, pl.accumulatedOar) == PrevOar(ps, j + 1, accOar);
        assert PrevTumor(rest, j, pl.accumulatedTumor) == PrevTumor(ps, j + 1, accTumor);
      }
      ProducedRun(step, k + 1, rest, pl.accumulatedOar, pl.accumulatedTumor);
      assert ps == [pl] + rest;
    }
  }

  /** A failing call after the plans `ps` makes the whole run fail. */
  lemma {:induction false} ProducedFailure(step: Step, k: nat, ps: seq<Plan>, accOar: real, accTumor: real)
    requires Callable(step) && Produced(step, k, ps, accOar, accTumor) && k + |ps| < 5
    requires step(k + |ps|, PrevOar(ps, |ps|, accOar), PrevTumor(ps, |ps|, accTumor)).Failure?
    ensures Thread(step, k, accOar, accTumor).Failure?
    decreases |ps|
  {
    if |ps| > 0 {
      assert step(k, accOar, accTumor) == Success(ps[0]);
      var pl := ps[0];
      var rest := ps[1..];
      forall j | 0 <= j < |rest|
        ensures step(k + 1 + j, PrevOar(rest, j, pl.accumulatedOar), PrevTumor(rest, j, pl.accumulatedTumor)) == Success(rest[j])
      {
        assert PrevOar(rest, j, pl.accumulatedOar) == PrevOar(ps, j + 1, accOar);
        assert PrevTumor(rest, j, pl.accumulatedTumor) == PrevTumor(ps, j + 1, accTumor);
      }
      assert PrevOar(rest, |rest|, pl.accumulatedOar) == PrevOar(ps, |ps|, accOar);
      assert PrevTumor(rest, |rest|, pl.accumulatedTumor) == PrevTumor(ps, |ps|, accTumor);
      ProducedFailure(step, k + 1, rest, pl.accumulatedOar, pl.accumulatedTumor);
    }
  }

  /** Call `k` of the driver, made by `step`. */
  method CallStep(c: Collaborators, p: Patient, sfs: seq<real>, alpha: real, beta: real,
                  fixedProb: int, fixedMean: real, fixedStd: real, k: nat, accOar: real, accTumor: real, ghost step: Step)
    returns (result: Result<Plan, Error>)
    requires ValidPatient(p) && LastCallFactorPositive(sfs) && k < 5
    requires Callable(step) && Runs(step, c, p, sfs, alpha, beta, fixedProb, fixedMean, fixedStd)
    ensures result == step(k, accOar, accTumor)
  {
    ghost var spec := CallSpec(c, p, sfs, alpha, beta, fixedProb, fixedMean, fixedStd, k, accOar, accTumor);
    var prefix := Prefix(sfs, k + 2);
    assert |prefix| > 0 && (k == 4 ==> prefix[|prefix| - 1] > 0.0);
    result := ValueEval(c, p, k + 1, accOar, accTumor, prefix, alpha, beta, fixedProb, fixedMean, fixedStd);
    assert result == spec;
  }

  /**
   * The loop of `whole_plan`: five calls of `value_eval`, fraction `k + 1`
   * seeing the first `k + 2` sparing factors, each passed the accumulated BEDs
   * the previous call returned; the first error ends the loop.
   */
  method RunCalls(c: Collaborators, p: Patient, sfs: seq<real>, alpha: real, beta: real,
                   fixedProb: int, fixedMean: real, fixedStd: real, ghost step: Step)
    returns (r: Result<seq<Plan>, Error>)
    requires ValidPatient(p) && LastCallFactorPositive(sfs)
    requires Callable(step) && Runs(step, c, p, sfs, alpha, beta, fixedProb, fixedMean, fixedStd)
    ensures r == Thread(step, 0, 0.0, 0.0)
  {
    var accumulatedOar := 0.0;
    var accumulatedTumor := 0.0;
    var done: seq<Plan> := [];
    for looper := 0 to 5
      invariant |done| == looper
      invariant Produced(step, 0, done, 0.0, 0.0)
      invariant accumulatedOar == PrevOar(done, looper, 0.0) && accumulatedTumor == PrevTumor(done, looper, 0.0)
    {
      var result := CallStep(c, p, sfs, alpha, beta, fixedProb, fixedMean, fixedStd, looper, accumulatedOar, accumulatedTumor, step);
      if result.Failure? {
        ProducedFailure(step, 0, done, 0.0, 0.0);
        return Failure(result.error);
      }
      var pl := result.value;
      ProducedExtend(step, 0, done, 0.0, 0.0, pl);
      accumulatedTumor := pl.accumulatedTumor;
      accumulatedOar := pl.accumulatedOar;
      done := done + [pl];
    }
    ProducedRun(step, 0, done, 0.0, 0.0);
    r := Success(done);
  }

  /** The three result arrays of `whole_plan`, filled fraction by fraction from the five plans. */
  method FillDoses(ps: seq<Plan>) returns (tumorDoses: array<real>, oarDoses: array<real>, physicalDoses: array<real>)
    requires |ps| == 5
    ensures fresh(tumorDoses) && fresh(oarDoses) && fresh(physicalDoses)
    ensures tumorDoses[..] == TumorBeds(ps) && oarDoses[..] == OarBeds(ps) && physicalDoses[..] == PhysicalDoses(ps)
  {
    physicalDoses := new real[5](_ => 0.0);
    tumorDoses := new real[5](_ => 0.0);
    oarDoses := new real[5](_ => 0.0);
    for looper := 0 to 5
      invariant tumorDoses[..looper] == TumorBeds(ps[..looper])
      invariant oarDoses[..looper] == OarBeds(ps[..looper])
      invariant physicalDoses[..looper] == PhysicalDoses(ps[..looper])
    {
      physicalDoses[looper] := ps[looper].dose;
      tumorDoses[looper] := ps[looper].tumorBed;
      oarDoses[looper] := ps[looper].oarBed;
      assert ps[..looper + 1] == ps[..looper] + [ps[looper]];
    }
    assert ps[..5] == ps;
    assert tumorDoses[..] == tumorDoses[..5];
    assert oarDoses[..] == oarDoses[..5];
    assert physicalDoses[..] == physicalDoses[..5];
  }

  /** `whole_plan`: the tumour BEDs, OAR BEDs and physical doses of the five fractions. */
  method WholePlan(c: Collaborators, p: Patient, sfs: seq<real>, alpha: real, beta: real,
                   fixedProb: int, fixedMean: real, fixedStd: real)
    returns (r: Result<(array<real>, array<real>, array<real>), Error>)
    requires ValidPatient(p) && LastCallFactorPositive(sfs)
    ensures var spec := WholePlanSpec(c, p, sfs, alpha, beta, fixedProb, fixedMean, fixedStd);
      r.Success? <==> spec.Success?
    ensures var spec := WholePlanSpec(c, p, sfs, alpha, beta, fixedProb, fixedMean, fixedStd);
      r.Success? ==>
        fresh(r.value.0) && fresh(r.value.1) && fresh(r.value.2) &&
        r.value.0[..] == TumorBeds(spec.value) &&
        r.value.1[..] == OarBeds(spec.value) &&
        r.value.2[..] == PhysicalDoses(spec.value)
  {
    ghost var step := Calls(c, p, sfs, alpha, beta, fixedProb, fixedMean, fixedStd);
    var plans := RunCalls(c, p, sfs, alpha, beta, fixedProb, fixedMean, fixedStd, step);
    if plans.Failure? {
      return Failure(plans.error);
    }
    var tumorDoses, oarDoses, physicalDoses := FillDoses(plans.value);
    r := Success((tumorDoses, oarDoses, physicalDoses));
  }
}
