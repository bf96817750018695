# Adaptive fractionation: a Dafny model of the planning core

Adaptive fractionation plans a radiotherapy course one fraction at a time.
Before each fraction the organ-at-risk (OAR) sparing factor is measured. A
probability law over future sparing factors is updated, and a
backward-induction dynamic program chooses the physical dose of the current
fraction. The dose is chosen so that the tumour reaches its biologically
effective dose (BED) goal while the OAR receives as little BED as possible.

This project models that core over exact reals and proves what it promises:

- `Bed` (bed.dfy): the linear-quadratic BED `sf·d·(1 + sf·d/ab)`, its matrix
  form over sparing factors and actions, and the closed-form dose that spends
  a BED budget exactly. That dose is the positive root of the quadratic, with
  the square root passed in as a function that satisfies `IsSqrt`.
- `NumpyOps` (numpy_ops.dfy): the numpy primitives the planners are written
  with:
  - `arange`;
  - first-index `argmax` and `argmin`;
  - `max`, `sum` and `full`;
  - `nonzero` and boolean indexing;
  - the masked assignment `a[a > bound] = limit`.
- `Grids3D` (grids3d.dfy): the discretisation of the five-fraction tumour × OAR
  planner:
  - the 130 sparing-factor bins and `probdist`;
  - the probability-threshold filter;
  - the BED state grids with their two overflow sentinels;
  - the fixed action space;
  - `argfind`.
- `Planner3D` (planner3d.dfy): `value_eval` and `whole_plan` of that planner:
  - set-up;
  - the closed-form last fraction;
  - the interior layers as a maximum over actions;
  - the backward loop over the value and policy tables;
  - the decision by first argmax;
  - the driver that threads the accumulated BEDs through five calls.
- `ReinforceOar` (reinforce_oar.dfy): `min_oar_bed`, the tumour-only planner:
  - the dose limits and the minimum-dose shrink rule;
  - the action space with the maximum appended;
  - the tumour BED states;
  - the terminal layer with its goal penalty, clamped in place;
  - the interior layers with the overdose penalty;
  - the decision, or the clamped budget dose in the last fraction.
- `ConstEval` (const_eval.dfy): the cost-of-fractions helpers:
  - the candidate fraction counts;
  - the static-dose OAR BED `B_noaft`;
  - the equal-fraction tumour dose `d_T`;
  - the linear fraction cost `Cn` and the cost table `Fn`;
  - the search `c_find`;
  - the fitted model `fitclass.B_func`.
- `Wrappers` (wrappers.dfy): `Option` and `Result`.

Loops and in-place updates of the source are methods with loop invariants.
Each method is proved equal to a specification function, for example:

- `Planner3D.ValueEval` against `ValueEvalSpec`;
- `ReinforceOar.MinOarBed` against `MinOarBedSpec`;
- `ConstEval.CFind` against `CFindSpec`.

The properties are lemmas about those functions.

The routines the planners call but do not define are parameters:

- the square root;
- the truncated-normal CDF;
- `std_calc`;
- `sf_probdist`;
- the grid interpolators.

The model assumes nothing about them beyond what a lemma states in its
`requires`. For example, `IsSqrt(sqrt)` holds, or the CDF is monotone.

Two facts about the code shape the model:

- In the tumour × OAR planner, the last-fraction dose is only raised to zero
  when negative. That planner has no dose limits, so nothing clamps the dose
  to a `[min_dose, max_dose]` range.
- Neither planner validates its inputs before building the grids. The model
  restricts some inputs through `requires`; "## Left out" lists each
  restriction with the members it applies to.

## Model

| member | source | states |
|---|---|---|
| Bed.BedCalcMatrix | adaptfx/3D_adaptive_fractionation.py:154-174 | the outer-product form has one row per sparing factor and one column per action, and entry [i][j] is the scalar BED of action j at sparing factor i |
| Bed.BedMonotone | adaptfx/3D_adaptive_fractionation.py:132-152 | BED is 0 at dose 0, never negative for a nonnegative dose, and nondecreasing in the dose and in the sparing factor |
| Bed.BedStrictInDose | adaptfx/3D_adaptive_fractionation.py:132-152 | at a positive sparing factor BED grows strictly with the dose |
| Bed.BedStrictInSparing | adaptfx/3D_adaptive_fractionation.py:132-152 | at a positive dose BED grows strictly with the sparing factor |
| Bed.BudgetDoseSolves | adaptfx/3D_adaptive_fractionation.py:278-279 | the closed-form root delivers exactly the remaining BED budget, and it is nonnegative exactly when the budget is |
| Bed.BudgetDoseIsLargestAdmissible | adaptfx/3D_adaptive_fractionation.py:303-305 | a nonnegative dose stays within the budget if and only if it does not exceed the closed-form root |
| NumpyOps.ArangeSpec | adaptfx/3D_adaptive_fractionation.py:234-235 | every element of `arange` lies in [start, stop) at start + i·step, there is one whenever start < stop, and one more step would reach stop |
| NumpyOps.ArangeIncreasing | adaptfx/3D_adaptive_fractionation.py:234-235 | `arange` with a positive step is strictly increasing |
| NumpyOps.ArgMax | adaptfx/3D_adaptive_fractionation.py:320 | the index returned holds a maximum, and every earlier entry is strictly smaller (the first maximum) |
| NumpyOps.Max | adaptfx/3D_adaptive_fractionation.py:321 | the maximum is an entry and bounds every entry |
| NumpyOps.ArgMin | src/const_eval.py:91-92 | the index returned holds a minimum, and every earlier entry is strictly larger (the first minimum) |
| NumpyOps.Masked | adaptfx/3D_adaptive_fractionation.py:231-232 | boolean indexing keeps, in order, exactly the entries at the set positions of the mask |
| NumpyOps.NonzeroEnds | src/const_eval.py:98-99 | `[[0, -1]]` of a boolean selection picks the least and the greatest set index |
| Grids3D.SfGridValues | adaptfx/3D_adaptive_fractionation.py:230 | the 130 bin centres are 0.01 + 0.01·k |
| Grids3D.SfGridPositive | adaptfx/3D_adaptive_fractionation.py:230 | every bin centre is a sparing factor in (0, 1.3] |
| Grids3D.ProbDist | adaptfx/3D_adaptive_fractionation.py:57-77 | the fresh 130-entry buffer holds at each bin the CDF increase over that bin |
| Grids3D.MassesTelescope | adaptfx/3D_adaptive_fractionation.py:74-76 | the bins tile the range without gaps: the first n masses add up to the CDF increase over the first n bins |
| Grids3D.MassesNonNegative | adaptfx/3D_adaptive_fractionation.py:75 | with a nondecreasing CDF every bin mass is nonnegative |
| Grids3D.FilterSpec | adaptfx/3D_adaptive_fractionation.py:230-232 | the filtered sparing factors and probabilities stay aligned and in bin order; they keep exactly the bins above 1e-5, unrenormalised |
| Grids3D.KeptSfPositive | adaptfx/3D_adaptive_fractionation.py:230-231 | every kept sparing factor is positive and at most 1.3 |
| Grids3D.EmptyFilterMeansLittleMass | adaptfx/3D_adaptive_fractionation.py:231-232 | the filter keeps no bin only when all 130 bins together carry at most 130·1e-5 |
| Grids3D.StateGridShape | adaptfx/3D_adaptive_fractionation.py:234-237 | a state grid counts up by 1 from the current BED, staying below the bound, and then holds exactly the sentinels bound and bound + 1; it is strictly increasing |
| Grids3D.ClampedQueryInGrid | adaptfx/3D_adaptive_fractionation.py:256-257 | a clamped projection from at or above the first grid point lies between the first point and the upper sentinel |
| Grids3D.ClampVectorSpec | adaptfx/3D_adaptive_fractionation.py:296-299 | the clamp replaces exactly the entries above the bound by bound + 1, leaves the others unchanged, and never exceeds bound + 1 |
| Grids3D.ActionSpace | adaptfx/3D_adaptive_fractionation.py:239 | the action space holds the 223 doses k/10, all nonnegative |
| Grids3D.ArgFind | adaptfx/3D_adaptive_fractionation.py:107-128 | the index returned is in range and holds an entry closest to the value; on ties it is the earliest such index |
| Planner3D.Setup | adaptfx/3D_adaptive_fractionation.py:222-247 | set-up fails exactly when no sparing-factor bin survives the filter; otherwise the tables are well formed |
| Planner3D.SetupShape | adaptfx/3D_adaptive_fractionation.py:234-245 | the tables hold the two state grids of the current BEDs, the fixed action space, and the tumour and OAR BED of every action |
| Planner3D.SetUp | adaptfx/3D_adaptive_fractionation.py:222-247 | the imperative set-up, with `probdist` filling its buffer, produces exactly `Setup` |
| Planner3D.TerminalActionSpec | adaptfx/3D_adaptive_fractionation.py:302-309 | the last-fraction action is nonnegative and is 0 once a bound is exceeded; otherwise it keeps the tumour and the OAR within their bounds and meets one of them exactly |
| Planner3D.TerminalValueNonPositive | adaptfx/3D_adaptive_fractionation.py:310-313 | the last-fraction value is never positive, and once a bound is exceeded it is at most the −1e11 penalty |
| Planner3D.TerminalLayerSpec | adaptfx/3D_adaptive_fractionation.py:302-314 | every last-fraction cell holds the closed-form value (≤ 0), and its policy entry is ten times the closed-form action |
| Planner3D.InteriorLayerSpec | adaptfx/3D_adaptive_fractionation.py:315-323 | every earlier cell is, per bin, an upper bound of every action's future value minus OAR BED, attained by the action its policy entry names, with no earlier action attaining it |
| Planner3D.FutureValueRows | adaptfx/3D_adaptive_fractionation.py:316-318 | the bin-by-bin loop yields the interpolated value of every clamped projected state |
| Planner3D.Sweep | adaptfx/3D_adaptive_fractionation.py:290-323 | the nested state loops build exactly the value layer and the policy layer of the fraction |
| Planner3D.SweepLayer | adaptfx/3D_adaptive_fractionation.py:290-292 | a sweep step writes the value and policy layer of its index, reading the layer written before it |
| Planner3D.Decide | adaptfx/3D_adaptive_fractionation.py:264-274 | the decision is the first maximising action index at the observed sparing-factor bin |
| Planner3D.DecideCurrent | adaptfx/3D_adaptive_fractionation.py:253-274 | the decision branch yields ten times the dose `value_eval` chooses |
| Planner3D.Backward | adaptfx/3D_adaptive_fractionation.py:238-323 | the backward loop writes the layers from the last fraction back and ends with ten times the chosen dose |
| Planner3D.ValueEval | adaptfx/3D_adaptive_fractionation.py:178-328 | `value_eval` returns exactly the specified plan, or the error when no bin survives the filter |
| Planner3D.ValueEvalDose | adaptfx/3D_adaptive_fractionation.py:324-328 | the returned BEDs are those of the dose (the last sparing factor for the OAR) added to the previous ones; before the last fraction the dose is a point of the action space; in the last fraction it is nonnegative and keeps both accumulated BEDs within bounds unless one was already exceeded |
| Planner3D.QueriesInGrid | adaptfx/3D_adaptive_fractionation.py:291-299 | every interpolation query, after the overdose clamp, lies inside the grids' range |
| Planner3D.Prefix | adaptfx/3D_adaptive_fractionation.py:369 | the slice `sparing_factors[0:n]` keeps the first n entries, or all of them |
| Planner3D.WholePlanSpec | adaptfx/3D_adaptive_fractionation.py:363-373 | a successful plan has exactly five fractions |
| Planner3D.ThreadStep | adaptfx/3D_adaptive_fractionation.py:368-369 | a run is its first call followed by the run from the next call on that call's accumulated BEDs, and a failing call fails the run |
| Planner3D.ThreadChains | adaptfx/3D_adaptive_fractionation.py:366-369 | calls that add their own BEDs, threaded, give plans whose accumulated BEDs chain |
| Planner3D.ChainedSums | adaptfx/3D_adaptive_fractionation.py:366-372 | in a chain the accumulated BEDs are the starting BEDs plus the sums of the per-fraction BEDs so far |
| Planner3D.CallsAccumulate | adaptfx/3D_adaptive_fractionation.py:369 | every call `whole_plan` makes returns the BEDs it was passed plus those of its own fraction |
| Planner3D.RunAccumulates | adaptfx/3D_adaptive_fractionation.py:366-369 | a run from zero of calls that each add their own BEDs gives, after call j, the sums of the BEDs of calls 0 to j |
| Planner3D.WholePlanAccumulates | adaptfx/3D_adaptive_fractionation.py:366-373 | after fraction j + 1 the accumulated BEDs are the sums of the BEDs of fractions 1 to j + 1 |
| Planner3D.ThreadLast | adaptfx/3D_adaptive_fractionation.py:368-369 | the fifth call is passed the accumulated BEDs the fourth returned |
| Planner3D.CallsLastSafe | adaptfx/3D_adaptive_fractionation.py:275-289 | the fifth call `whole_plan` makes, when it succeeds from BEDs within both bounds, returns a nonnegative dose that keeps both bounds |
| Planner3D.RunLastSafe | adaptfx/3D_adaptive_fractionation.py:366-369 | in a run whose fifth call keeps the bounds, the last plan keeps them unless the fourth already broke one |
| Planner3D.LastFractionWithinBounds | adaptfx/3D_adaptive_fractionation.py:275-289 | unless a bound was already exceeded after the fourth fraction, the last dose is nonnegative and leaves the tumour and the OAR within their bounds |
| Planner3D.CallStep | adaptfx/3D_adaptive_fractionation.py:369 | call k runs `value_eval` for fraction k + 1 on the first k + 2 sparing factors |
| Planner3D.RunCalls | adaptfx/3D_adaptive_fractionation.py:366-369 | the loop of five calls, each passed the previous call's accumulated BEDs, returns exactly the threaded run, and the first error ends it |
| Planner3D.FillDoses | adaptfx/3D_adaptive_fractionation.py:363-372 | the three fresh arrays hold the tumour BEDs, OAR BEDs and physical doses of the five plans, in fraction order |
| Planner3D.WholePlan | adaptfx/3D_adaptive_fractionation.py:330-373 | `whole_plan` succeeds exactly when the specified run does, and then returns its tumour BEDs, OAR BEDs and doses |
| ReinforceOar.ClampMaxDose | src/adaptfx/reinforce_oar.py:44-52 | after set-up the maximum dose never exceeds what the remaining budget allows; `-1` means exactly that dose, and any other maximum is kept or cut down to it |
| ReinforceOar.ShrinkMinDose | src/adaptfx/reinforce_oar.py:54-55 | the minimum never exceeds the maximum; it is kept when it did not, and otherwise lies one dose step below the maximum |
| ReinforceOar.StepRound | src/adaptfx/reinforce_oar.py:58-60 | the value is rounded down to within one step below it |
| ReinforceOar.ActionSpace | src/adaptfx/reinforce_oar.py:57-61 | the action space is nonempty and ends at exactly the maximum dose |
| ReinforceOar.ActionSpaceShape | src/adaptfx/reinforce_oar.py:57-61 | the actions count up from the minimum in dose steps and are strictly increasing inside [min, max]; they start at the minimum whenever min and max are a step apart |
| ReinforceOar.BedtStatesShape | src/adaptfx/reinforce_oar.py:64-69 | the states count up from the accumulated BED in state steps, all below goal + step; they exist exactly when the accumulated BED is below that limit, and the last one has reached the goal |
| ReinforceOar.BedMatrixTransposed | src/adaptfx/reinforce_oar.py:77 | this orientation is the transpose of the sparing-factor-major matrix of the 3D planner |
| ReinforceOar.Setup | src/adaptfx/reinforce_oar.py:29-77 | the set-up tables are well formed, with the minimum dose at most the maximum |
| ReinforceOar.SetUp | src/adaptfx/reinforce_oar.py:29-77 | the imperative set-up, reassigning `max_dose` and `min_dose`, produces exactly `Setup` |
| ReinforceOar.SetupDoseLimits | src/adaptfx/reinforce_oar.py:44-61 | after set-up max ≤ the budget dose and min ≤ max; `-1` gives exactly the budget dose, and every action lies in [min, max] |
| ReinforceOar.RaiseTo | src/adaptfx/reinforce_oar.py:120 | every entry ends at least the bound and never below its old value, and it either keeps its old value or becomes the bound: the entrywise maximum of the entry and the bound |
| ReinforceOar.CapAt | src/adaptfx/reinforce_oar.py:121 | every entry ends at most the bound and never above its old value, and it either keeps its old value or becomes the bound: the entrywise minimum of the entry and the bound |
| ReinforceOar.RaiseInPlace | src/adaptfx/reinforce_oar.py:120 | the in-place masked assignment leaves the array equal to `RaiseTo` of its old contents |
| ReinforceOar.CapInPlace | src/adaptfx/reinforce_oar.py:121 | the in-place masked assignment leaves the array equal to `CapAt` of its old contents |
| ReinforceOar.Needed | src/adaptfx/reinforce_oar.py:116 | each state's needed BED, added to that state, lands exactly on the tumour goal |
| ReinforceOar.LastActionsClamped | src/adaptfx/reinforce_oar.py:116-121 | every last action lies between the BEDs of the minimum and the maximum dose, and equals what the state needs when that lies between them |
| ReinforceOar.Penalty | src/adaptfx/reinforce_oar.py:125-126 | for every weight the shaping, written with a sign test, is −abs((state + action − goal)·weight); with a nonnegative weight that is −weight·abs(state + action − goal) |
| ReinforceOar.PenaltySign | src/adaptfx/reinforce_oar.py:125-126 | for any nonzero weight the penalty is never positive, and it is zero exactly when state and action hit the goal |
| ReinforceOar.TerminalLayerSpec | src/adaptfx/reinforce_oar.py:113-131 | each terminal cell is at most minus the OAR BED of its dose, with equality exactly when the goal is hit; that dose delivers the clamped last action exactly |
| ReinforceOar.TerminalValues | src/adaptfx/reinforce_oar.py:113-131 | clamping `last_actions` in place, first from below and then from above, yields the terminal layer |
| ReinforceOar.InteriorLayerSpec | src/adaptfx/reinforce_oar.py:136-152 | each interior cell bounds every action's value and equals one of them; an overdosed projection reads the tumour limit and is charged the infinite penalty |
| ReinforceOar.Interior | src/adaptfx/reinforce_oar.py:136-152 | one interior step turns layer i − 1 into layer i |
| ReinforceOar.Decide | src/adaptfx/reinforce_oar.py:90-102 | before the last fraction the dose is the action at the first maximum of the decision values |
| ReinforceOar.LastDose | src/adaptfx/reinforce_oar.py:104-111 | in the last fraction the dose is the budget dose clamped into [min, max] |
| ReinforceOar.Backward | src/adaptfx/reinforce_oar.py:81-153 | the loop writes the terminal layer and then the interior layers, from the last fraction back, and ends with the chosen dose |
| ReinforceOar.MinOarBed | src/adaptfx/reinforce_oar.py:5-158 | `min_oar_bed` returns exactly the specified dose and BEDs |
| ReinforceOar.MinOarBedDose | src/adaptfx/reinforce_oar.py:86-158 | the dose lies in [min, max]; before the last fraction it is the action at the first maximum; the returned BEDs are its tumour BED and its OAR BED at the last observed sparing factor |
| ReinforceOar.MinOarBedWithinBudget | src/adaptfx/reinforce_oar.py:44-52 | with a nonnegative budget and dose, the fraction never takes the tumour beyond its goal |
| ReinforceOar.LastFractionReachesGoal | src/adaptfx/reinforce_oar.py:104-111 | in the last fraction, when neither limit binds, the dose is the budget dose and reaches the tumour goal exactly |
| ConstEval.Fractions | src/const_eval.py:7-9 | there are n_max − 1 candidates (none below 2) |
| ConstEval.FractionsRange | src/const_eval.py:7-9 | the candidates are exactly 2..n_max, in increasing order, one apart |
| ConstEval.StaticBeds | src/const_eval.py:11-16 | one BED per sparing factor after the planning one |
| ConstEval.BNoAftAppend | src/const_eval.py:11-16 | the planning factor alone costs nothing, and each further factor adds exactly its BED |
| ConstEval.BNoAftIgnoresPlanning | src/const_eval.py:14 | the planning sparing factor does not enter the sum |
| ConstEval.BNoAftConstant | src/const_eval.py:11-16 | with a constant sparing factor the static-dose OAR BED is n times the BED of one fraction |
| ConstEval.DTQuadratic | src/const_eval.py:23-25 | `d_T` is nonnegative and solves n·d² + n·abt·d = abt·goal |
| ConstEval.DTSolves | src/const_eval.py:23-25 | n fractions of `d_T` reach the goal exactly, and a nonnegative dose stays within the goal in n fractions if and only if it is at most `d_T` |
| ConstEval.Cn | src/const_eval.py:53-56 | one cost per candidate count |
| ConstEval.CnMarginal | src/const_eval.py:53-56 | the cost starts at 2c and each further fraction costs exactly c more |
| ConstEval.TotalCostSpec | src/const_eval.py:77-83 | the cost table keeps row 0 and the later rows, and charges both BED rows c per fraction |
| ConstEval.Fn | src/const_eval.py:77-83 | `Fn` returns a fresh copy equal to the cost table; it modifies nothing, so its input is unchanged |
| ConstEval.SelectedIsFirstCheapest | src/const_eval.py:89-94 | the selected count is the one at a cheapest entry of the cost row, with no earlier entry as cheap |
| ConstEval.HitIndices | src/const_eval.py:96-97 | the indices the mask `n_list == n_targ` selects are exactly those whose selected count is the target, in increasing order |
| ConstEval.FirstLastHits | src/const_eval.py:96-99 | the first and last selection exists exactly when some count is the target, and is then the first and the last such cost |
| ConstEval.FoundMeaning | src/const_eval.py:95-100 | the table succeeds exactly when both lists hit the target; row 0 is then zero and rows 1 and 2 are the first and last hitting cost of each list |
| ConstEval.CFindSpecMeaning | src/const_eval.py:85-100 | `c_find` succeeds exactly when both BED rows select the target for some cost; it then returns the first and last such cost of each row |
| ConstEval.SelectFor | src/const_eval.py:90-94 | one loop body yields the counts the two rows select for that cost |
| ConstEval.SelectAll | src/const_eval.py:86-94 | the loop fills two fresh lists with the selected counts of every cost, in order |
| ConstEval.Collect | src/const_eval.py:95-100 | the fresh 3 × 2 table is the first and last matching costs, or the error when a list has no match |
| ConstEval.CFind | src/const_eval.py:85-100 | `c_find` returns exactly the specified table, or the error |
| ConstEval.FitIdentity | src/const_eval.py:67 | at any root of the equal-fraction quadratic, the fitted closed form equals n times the OAR BED of that dose |
| ConstEval.BFuncIsFittedBed | src/const_eval.py:62-71 | without a cost `B_func` is n times the OAR BED of `d_T` at sf; with a cost c it adds c·n |
| ConstEval.BFuncIsStaticOarBed | src/const_eval.py:62-71 | without a cost, `B_func` equals `B_noaft` of a course whose sparing factors after the planning scan all equal sf, each fraction delivering `d_T` |

## Left out

- Floating point: everything is over exact reals. Float artefacts are not modelled: the element count `arange` gives with an inexact step, NaN, infinities, and overflow.
- Grids3D.ProbDist: the source's upper bin edge is written `0.004999999999999999999`, which is the float 0.005; the model uses 0.005.
- Planner3D.SetUp: the observed sparing factor is not rounded to two decimals (`np.round`) before `argfind`. The bin it selects can therefore differ on exact ties.
- The truncated normal law (`get_truncated_normal`, `afx.truncated_normal`) and its CDF are parameters. So are `std_calc`, `afx.sf_probdist`, `RegularGridInterpolator` and `afx.interpolate`. Each is numerical library code outside this core.
- The square root is a parameter. Lemmas that need it to be a square root require `IsSqrt`.
- `afx.convert_to_physical` is modelled as the nonnegative root of `bed(d, abt) = b`. `afx.step_round` is modelled as rounding down to a multiple of the step. Their sources are not part of this model.
- ReinforceOar.BedMatrix: the orientation of `afx.bed_calc_matrix` is taken as one row per action. The file reshapes and broadcasts it as that shape. `BedMatrixTransposed` relates it to the 3D planner's matrix.
- Planner3D.ValueEval: requires positive alpha/beta ratios (`ValidPatient`). The code divides by them and also runs on a negative ratio, where its square roots can be of negative numbers; zero and negative ratios are not modelled.
- Planner3D.ValueEval: requires a fraction from 1 to 5 and a nonempty sparing-factor list. The code fails on an empty list and on a fraction above 5 (a negative array size); fractions below 1 are not modelled.
- Planner3D.ValueEval: in fraction 5 requires the last sparing factor to be positive. The code divides by its square (line 278) and also runs on a negative factor; zero and negative last factors are not modelled.
- Planner3D.WholePlan: requires positive alpha/beta ratios, a nonempty sparing-factor list (the code fails on an empty one) and a positive factor at the last position of `sparing_factors[0:6]` (`LastCallFactorPositive`). That is the only factor it divides by; any other factor may be zero or negative.
- ReinforceOar.MinOarBed: requires positive alpha/beta ratios and positive dose and state step sizes (`ValidKeys`). The code divides by the ratios and steps by the step sizes, and also runs on negative values; zero and negative values are not modelled.
- ReinforceOar.MinOarBed: requires a nonempty public sparing-factor list and a fraction no later than the last. The code fails otherwise (`sparing_factors_public[-1]`, and `np.zeros` of a negative size). Any fraction up to the last, zero and negative ones included, is modelled.
- Planner3D.ValueEval: `Values` and `policy` are arrays of layers. Each 4-D assignment `Values[index][t][o] = ...` is modelled as building the layer row by row and storing it whole.
- Planner3D.WholePlan: the three result arrays are filled after the five calls rather than inside the loop. No call reads them, so the result is the same.
- Planner3D.ValueEval: the policy table is built but, as in the source, not returned. The unused `end_penalty` and `future_*` values of the last-fraction branch are not modelled.
- `data_fit`, `Bn`, `B_aft`, `Bn_fit` and the module-level script of `src/const_eval.py` are left out: random sampling, curve fitting, HDF5 files and plotting.
- `whole_plan_print` and `single_fraction_print` are left out: they only print.
- ConstEval.Fn: requires a table of at least three rows of equal length, one entry per candidate count. The source fails on other shapes, except for n_max = 2: its single cost then broadcasts over rows 1 and 2 of any length and is added to every entry. That case is not modelled.
- ConstEval.CFind: requires n_max ≥ 2, and so do `SelectAll`, `SelectFor`, `CFindSpec` and `Selected`. For a smaller n_max the cost list `Cn` is empty. The source then raises: `Fn`'s `+=` fails on a nonempty row, `np.argmin` fails on an empty one, and with an empty `c_list` the `[[0, -1]]` selection fails. These raising paths are not modelled.
- ConstEval.CFind: when either list has no cost selecting the target, numpy raises `IndexError` on `[[0, -1]]`. The model returns the `NoMatch` failure instead.
- ConstEval.BFunc: the optional cost `c == None` is an `Option`, and the `fitclass` attributes are a `FitParams` value.
- ConstEval.CFind: the loop and the end of `c_find` are split into the methods `SelectAll`, `SelectFor` and `Collect`.
