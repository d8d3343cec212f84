# deampy Markov core, cost-effectiveness curve bookkeeping and axis ticks, in Dafny

This project models three parts of the deampy decision-analysis library and proves properties of the models:

- **Markov processes** (`deampy/markov.py`):
  - the check that state descriptions are `0, 1, 2, ...` in order;
  - the discrete-time jump process `MarkovJumpProcess`, which checks row sums and draws the next state from a row;
  - the continuous-time `Gillespie` process, which checks rates, builds a holding-time scale and destination weights per state, and draws a holding time and a destination;
  - `out_rate`;
  - the conversions `continuous_to_discrete` and `discrete_to_continuous` between rate and probability matrices.
- **Curves of a cost-effectiveness analysis** (`deampy/support/econ_eval_support.py`):
  - the incremental net monetary benefit functions `inmb_*`;
  - the frontier searches `update_curves_with_highest_values` and `update_curves_with_lowest_values`;
  - the `_Curve`, `INMBCurve` and `ExpHealthCurve` bookkeeping: labels, interval-type parsing, error bars and `update_feasibility`.
- **Axis ticks** (`deampy/plots/plot_support.py`): `calculate_ticks`.

## Files

| File | Holds |
|---|---|
| `wrappers.dfy` | `Option`, `Result` and `Outcome`. |
| `numerics.dfy` | `Sum` over reals, `MaxOf`, and the laws assumed of `exp` and `ln` (`ExpLaws`, `LnLaws`). Also small arithmetic lemmas. |
| `sampling.dfy` | The random source as a draw counter (`RandomSource`), the samplers as an oracle (`Sampler`), and what a sound sampler promises (`Sound`). |
| `markov_rates.dfy` | `out_rate`, `continuous_to_discrete` and `discrete_to_continuous`. |
| `markov.dfy` | The state-description check, `MarkovJumpProcess` and `Gillespie`. |
| `econ_eval_support.dfy` | The INMB functions, the `Curve` class, the frontier searches, `INMBCurve` and `ExpHealthCurve`. |
| `plot_support.dfy` | `calculate_ticks`. |

## How the model reads

- **Methods and classes.** Loops that build lists become methods with loop invariants. Each such method is proved against a function that defines its result. Objects whose fields the source updates become classes:
  - the curve frontier searches append to each winning curve's `frontierXs` and `frontierYs` in place;
  - `update_feasibility` appends to the curve's `xs` and `ys` and to its own error lists.
- **Errors become values.**
  - A constructor that may raise becomes a static `Create` method returning `Result`. This covers `MarkovJumpProcess`, `Gillespie`, `INMBCurve` and `ExpHealthCurve`.
  - A query that may raise returns `Failure(...)`. The error value names the offending row, index, rate or label.
  - Every value check the source makes with `raise` or `assert` becomes one of these error values. The type assertions (`deampy/markov.py:16`, `:38`, `:98`) are enforced by Dafny's types instead.
- **`None` entries.**
  - A `None` rate is `Option<real>`.
  - A missing holding-time distribution becomes `HoldingScale(m, i) == None`, and a missing destination distribution becomes `Destinations(m, i) == None`. Both mean an absorbing state.
  - Python's `float('-inf')` and `float('inf')` seeds of the frontier searches are the `Extended` datatype.
- **Randomness.**
  - `Empirical(...).sample(rng)` and `Exponential(scale).sample(rng)` are the two arrows of a `Sampler`.
  - Each draw consumes one step of the `RandomSource`. This fixes the order in which `Gillespie.get_next_state` draws: the holding time first, then the destination.
  - `Sound(sampler)` states what a correct sampler guarantees: an empirical draw lands on an entry of positive weight, and an exponential draw is non-negative.
- **Numerics.**
  - `numpy.exp` and `numpy.log` are the parameters `exp` and `ln`.
  - A property that needs them (row sums equal to one, bounds in `[0, 1]`, non-negative converted rates) is stated under `ExpLaws(exp)` or `LnLaws(ln)`.
  - All arithmetic is over exact reals.

Edge cases the model follows as the code has them:

- `MarkovJumpProcess.get_next_state` accepts an index and a label together. The index is range-checked first, then the label wins (`deampy/markov.py:66-78`).
- `MarkovJumpProcess` accepts an empty probability matrix. Only `Gillespie` rejects one (`deampy/markov.py:101-102`).
- In `discrete_to_continuous` a row with `p_ii` exactly 1 gets zero rates (`deampy/markov.py:273-274`). Otherwise the rate divides by `(1 - p_ii) * delta_t` (`deampy/markov.py:276`). A zero `p_ii` goes to `log(0)`. The model takes `ln` as a parameter and proves non-negative rates only for `0 < p_ii <= 1`.

## Model

| member | source | states |
|---|---|---|
| Markov.CheckStateDescriptions | deampy/markov.py:15-28 | Passes exactly when there are no descriptions, or when their count equals the number of matrix rows and description i has value i. A count mismatch fails with both counts. Otherwise the failure names the first position whose value is not its index, and that value. |
| Markov.MarkovJumpProcess.constructor | deampy/markov.py:26-56 | Stores the state list, the rows of the matrix as the empirical distributions, and their number as the state count. |
| Markov.MarkovJumpProcess.Create | deampy/markov.py:32-56 | Succeeds exactly when the descriptions are accepted and every row sum lies in [0.99999, 1.00001]. Description errors come first. Otherwise the failure names the first rejected row and its sum. On success the process is valid and holds the matrix rows and `len(matrix)` states. |
| Markov.MarkovJumpProcess.CurrentState | deampy/markov.py:66-78 | Fails when neither an index nor a label is given, when a given index is outside [0, n), or when a label is not a described state, in that order. Otherwise succeeds with the label's value if a label is given, else with the index. Failure holds exactly in those three cases. |
| Markov.MarkovJumpProcess.GetNextState | deampy/markov.py:58-89 | Fails as CurrentState fails. Otherwise it draws once from the current state's row and reports the drawn index, or the described state at that index when descriptions exist. It advances the random source by one draw. With descriptions it fails exactly when the drawn index has no description, where `self._states[next]` raises IndexError. Under a sound sampler the drawn entry has positive probability. |
| Markov.LabelledDrawSucceeds | deampy/markov.py:82-86 | With descriptions and rows no longer than the state count, a sound draw always succeeds and returns the described state at the drawn index, which has positive probability. |
| Markov.Gillespie.constructor | deampy/markov.py:104-106 | Stores the rate matrix and the per-state holding-time and destination distributions. |
| Markov.Gillespie.Create | deampy/markov.py:93-138 | Succeeds exactly when the matrix is non-empty and no rate is negative. An empty matrix fails first. Otherwise the failure reports the first negative rate in row-major order, with its row and value. On success, each state's holding scale is 1/out-rate and its destination weights are rate/out-rate with 0 on the diagonal. Both are absent in an absorbing state. |
| Markov.Gillespie.GetNextState | deampy/markov.py:140-163 | Fails exactly when the index is outside [0, n). In an absorbing state it returns (None, index) and draws nothing. Otherwise it draws an exponential holding time with scale 1/out-rate, then a destination from the rate shares, consuming two draws in that order. Under a sound sampler the holding time is non-negative and the destination is another state with a positive rate. |
| Markov.DestinationWeights | deampy/markov.py:124-134 | The weights are the row's rates with the diagonal replaced by 0, divided by the out-rate. |
| Markov.JumpTargets | deampy/markov.py:117-134 | From a state with a positive out-rate, a sound sampler gives a non-negative holding time and a destination other than the state itself, with a present, positive rate. |
| Markov.DestinationWeightsSumToOne | deampy/markov.py:131-134 | The destination weights of a non-absorbing state sum to 1. They are 0 on the diagonal and rate/out-rate elsewhere. |
| Markov.AbsorbingStateStays | deampy/markov.py:152-156 | A valid process in a state with zero out-rate has no distributions for it and returns (None, index) on every call. |
| MarkovRates.OutRate | deampy/markov.py:235-246 | The loop returns the sum of the present rates of the row, skipping the entry at the state's own index. |
| MarkovRates.OutRateExcludesSelf | deampy/markov.py:242-246 | The out-rate is the sum of all present rates minus the rate at the state's own index. |
| MarkovRates.OutRateIgnoresSelf | deampy/markov.py:243-245 | Changing the diagonal entry, including setting it to None, leaves the out-rate unchanged. |
| MarkovRates.OutRateNonNegative | deampy/markov.py:242-246 | A row without negative rates has a non-negative out-rate. |
| MarkovRates.StayAtZeroRate | deampy/markov.py:190-191 | With rate 0 the probability of staying is exp(0) = 1 and that of leaving is 0. |
| MarkovRates.LeaveProbabilityBounds | deampy/markov.py:203-204 | For a non-negative rate and cycle length, 1 - exp(-rate * dt) lies in [0, 1]. |
| MarkovRates.ContinuousToDiscrete | deampy/markov.py:166-232 | Entry (i, i) is exp(-mu_i dt). Entry (i, j) is (1 - exp(-mu_i dt)) lambda_ij / mu_i when mu_i > 0, and 0 otherwise. The bound is the largest double-jump probability over all states, and some state attains it. With non-negative rates and the laws of exp, every row sums to 1 and the bound lies in [0, 1]. |
| MarkovRates.RatesOut | deampy/markov.py:179-182 | Entry k of the list is the out-rate of row k. |
| MarkovRates.ProbabilityMatrix | deampy/markov.py:184-199 | The matrix built by the double loop is the discretization of the rate matrix, entry by entry. |
| MarkovRates.DepartureProbabilities | deampy/markov.py:201-204 | Entry l is 1 - exp(-dt * mu_l). |
| MarkovRates.DoubleJumpProbabilities | deampy/markov.py:206-229 | Entry i is the probability of leaving i times the probability of leaving the state jumped to, both within dt. |
| MarkovRates.LeaveAgain | deampy/markov.py:213-226 | The inner sum over j != i of the jump share (i, j) times the departure probability of j. The share is 0 when mu_i is 0. |
| MarkovRates.DiscreteProbFactors | deampy/markov.py:189-194 | An off-diagonal probability is the leaving probability times the jump share. |
| MarkovRates.RowSharesSumToOne | deampy/markov.py:220-222 | The jump shares of a row sum to 1 when its out-rate is positive, and to 0 otherwise. |
| MarkovRates.DiscreteRowSum | deampy/markov.py:188-196 | A probability row sums to the stay probability plus the leave probability times the sum of the jump shares. |
| MarkovRates.DiscreteRowSumsToOne | deampy/markov.py:184-199 | With non-negative rates and the laws of exp, every row of the discretized matrix sums to 1. This includes absorbing rows. |
| MarkovRates.ProbOutInUnitInterval | deampy/markov.py:203-204 | Every departure probability lies in [0, 1]. |
| MarkovRates.AgainTermBounds | deampy/markov.py:219-224 | One term of the double-jump sum lies between 0 and its jump share. |
| MarkovRates.AgainSumBounds | deampy/markov.py:214-226 | Every partial double-jump sum lies between 0 and the sum of the corresponding jump shares. |
| MarkovRates.DoubleJumpInUnitInterval | deampy/markov.py:207-229 | Every double-jump probability lies in [0, 1]. |
| MarkovRates.AbsorbingStateHasNoDoubleJump | deampy/markov.py:220-229 | A state with zero out-rate has double-jump probability 0. |
| MarkovRates.DiscreteToContinuous | deampy/markov.py:249-282 | Every diagonal rate is None. Off-diagonal rates are 0 when p_ii = 1, and -ln(p_ii) p_ij / ((1 - p_ii) dt) otherwise. With the laws of ln, dt > 0 and probability-like rows, no rate is negative. |
| MarkovRates.RateFromProbFactors | deampy/markov.py:276 | A converted rate is a per-row factor -ln(p_ii) / ((1 - p_ii) dt) times p_ij. |
| MarkovRates.ConvertedRateNonNegative | deampy/markov.py:276 | For 0 < p_ii <= 1, p_ij >= 0 and dt > 0, a converted rate is non-negative. |
| MarkovRates.AbsorbingRowHasZeroRates | deampy/markov.py:273-274 | A row with p_ii = 1 converts to zero rates off the diagonal. |
| MarkovRates.ConvertedOutRate | deampy/markov.py:264-280 | For a row summing to 1 with p_ii != 1, the converted rates have out-rate -ln(p_ii)/dt. Under exp = ln⁻¹ that is the rate whose stay probability is p_ii again, but the model does not prove this. |
| EconEvalSupport.InmbU | deampy/support/econ_eval_support.py:26-28 | `inmb_u`. Its properties are stated by InmbLinear and InmbBreakEven. |
| EconEvalSupport.InmbD | deampy/support/econ_eval_support.py:31-33 | `inmb_d`. InmbLinear states that it is `inmb_u` with the effect negated. |
| EconEvalSupport.Inmb2U | deampy/support/econ_eval_support.py:36-38 | `inmb2_u`. Inmb2Selects states which threshold it applies. |
| EconEvalSupport.Inmb2D | deampy/support/econ_eval_support.py:41-43 | `inmb2_d`. Inmb2Selects states which threshold it applies. |
| EconEvalSupport.InmbLinear | deampy/support/econ_eval_support.py:26-33 | inmb_u(w) is -dCost at w = 0 and grows by dEffect per unit of w. inmb_d is inmb_u with the effect negated. |
| EconEvalSupport.InmbBreakEven | deampy/support/econ_eval_support.py:26-28 | For a positive effect, the INMB is non-negative exactly when w >= dCost/dEffect. |
| EconEvalSupport.Inmb2Selects | deampy/support/econ_eval_support.py:36-43 | inmb2_u and inmb2_d apply the gain threshold when dEffect >= 0 and the loss threshold otherwise. With equal thresholds they equal inmb_u and inmb_d. |
| EconEvalSupport.Curve.constructor | deampy/support/econ_eval_support.py:154-165 | Stores label, color and line style. The short label is the given one, or the label when none is given. Points and frontiers start empty and error bars absent. |
| EconEvalSupport.HighestIn | deampy/support/econ_eval_support.py:109-114 | The index returned holds the largest value, and every earlier index is strictly smaller: the first maximum wins ties. |
| EconEvalSupport.LowestIn | deampy/support/econ_eval_support.py:136-141 | The index returned holds the smallest value, and every earlier index is strictly larger: the first minimum wins ties. |
| EconEvalSupport.LowestIsHighestOfNegated | deampy/support/econ_eval_support.py:136-141 | The lowest search is the highest search on negated values. |
| EconEvalSupport.HighestWinnerIsBest | deampy/support/econ_eval_support.py:105-117 | At each threshold the chosen curve has a value no other curve exceeds. Every curve before it is strictly below it. |
| EconEvalSupport.LowestWinnerIsBest | deampy/support/econ_eval_support.py:132-144 | At each threshold the chosen curve has a value no other curve undercuts. Every curve before it is strictly above it. |
| EconEvalSupport.AppendedByPosition | deampy/support/econ_eval_support.py:118-119 | When the list holds no curve twice, what a curve's frontier receives is what its own position won. |
| EconEvalSupport.NeverWinningGetsNothing | deampy/support/econ_eval_support.py:116-119 | A position receives no frontier point exactly when it wins at no threshold. |
| EconEvalSupport.AppendsPerThreshold | deampy/support/econ_eval_support.py:116-119 | Exactly one frontier point is appended per threshold, summed over all positions. |
| EconEvalSupport.AppendToFrontier | deampy/support/econ_eval_support.py:118-119 | The winner's frontier gets the threshold and the value appended. Every curve's frontier stays its start followed by the points it has received. |
| EconEvalSupport.HighestCurve | deampy/support/econ_eval_support.py:109-114 | The inner loop, starting from -inf and replacing on a strictly greater value, returns the first highest curve and its value. |
| EconEvalSupport.LowestCurve | deampy/support/econ_eval_support.py:136-141 | The inner loop, starting from +inf and replacing on a strictly smaller value, returns the first lowest curve and its value. |
| EconEvalSupport.HighestStep | deampy/support/econ_eval_support.py:107-119 | One threshold of the highest search extends the winners, their values and the frontiers by one. |
| EconEvalSupport.LowestStep | deampy/support/econ_eval_support.py:134-146 | One threshold of the lowest search extends the winners, their values and the frontiers by one. |
| EconEvalSupport.HighestLoop | deampy/support/econ_eval_support.py:106-119 | After all thresholds, the winners are the first highest curves. Each frontier is its start followed by the thresholds and values it won. |
| EconEvalSupport.LowestLoop | deampy/support/econ_eval_support.py:133-146 | After all thresholds, the winners are the first lowest curves. Each frontier is its start followed by the thresholds and values it won. |
| EconEvalSupport.UpdateCurvesWithHighestValues | deampy/support/econ_eval_support.py:100-124 | Returns one winner per threshold: the first curve with the highest y at that threshold. Each curve's frontier xs and ys are its old ones followed by the thresholds it won and its values there. Points and error bars are unchanged. |
| EconEvalSupport.UpdateCurvesWithLowestValues | deampy/support/econ_eval_support.py:127-151 | Returns one winner per threshold: the first curve with the lowest y at that threshold. Each curve's frontier xs and ys are its old ones followed by the thresholds it won and its values there. Points and error bars are unchanged. |
| EconEvalSupport.ParseIntervalType | deampy/support/econ_eval_support.py:207-214 | Accepts exactly 'c', 'p' and 'n' and rejects anything else with the given string. The kind parsed prints back as the same code. |
| EconEvalSupport.IntervalCodeRoundTrip | deampy/support/econ_eval_support.py:207-214 | Every interval kind's code parses back to that kind. |
| EconEvalSupport.UpperErrors | deampy/support/econ_eval_support.py:218 | y plus the upper error is the interval's upper end, point by point. |
| EconEvalSupport.LowerErrors | deampy/support/econ_eval_support.py:219 | y minus the lower error is the interval's lower end, point by point. |
| EconEvalSupport.ErrorsNonNegative | deampy/support/econ_eval_support.py:216-219 | Both errors at a point are non-negative exactly when y lies in its interval. |
| EconEvalSupport.INMBCurve.constructor | deampy/support/econ_eval_support.py:188-191 | Takes the wtp values as xs with line style '-', and stores the statistics and the interval code. |
| EconEvalSupport.INMBCurve.Create | deampy/support/econ_eval_support.py:176-193 | Succeeds exactly for a valid interval code and otherwise fails with it. On success the curve has the given label, color, line style '-' and short label (defaulting to the label), and empty frontiers. xs are the wtp values, and ys hold the incremental NMB at each of them. For 'n' there are no error bars. For 'c' (resp. 'p'), y plus the upper error and y minus the lower error are the ends of the confidence (resp. percentile) interval at that wtp value. |
| EconEvalSupport.INMBCurve.CalculateYsLErrsUErrs | deampy/support/econ_eval_support.py:195-221 | Sets ys to the incremental NMB at each x, and fails exactly on an invalid code. On success there are no error bars for 'n'. Otherwise y plus the upper error and y minus the lower error are the ends of the confidence or percentile interval at x. xs and the frontiers are unchanged. |
| EconEvalSupport.MeanErrors | deampy/support/econ_eval_support.py:278-283 | Without an interval both errors are None. With one, mean - lErr and mean + uErr are its ends. |
| EconEvalSupport.ExpHealthCurve.constructor | deampy/support/econ_eval_support.py:263-283 | Starts with empty points, frontiers and error lists, the given labels, the mean effect, and the errors of the mean against the interval. |
| EconEvalSupport.ExpHealthCurve.Create | deampy/support/econ_eval_support.py:252-283 | Succeeds exactly for a valid interval code and otherwise fails with it. On success the curve has the given label, color, line style '-' and short label, and empty points, frontiers and error lists. It holds the mean effect. For 'n' both errors are None. For 'c' (resp. 'p'), mean - lErr and mean + uErr are the ends of the t-based CI (resp. percentile interval). |
| EconEvalSupport.ExpHealthCurve.UpdateFeasibility | deampy/support/econ_eval_support.py:285-289 | Appends b to xs, the mean effect to ys, and lErr and uErr to the error lists. The four lists keep one entry per budget value. The frontiers and the curve's own error bars are unchanged. |
| PlotSupport.TickCount | deampy/plots/plot_support.py:47-48 | A range holds no ticks exactly when it starts above its end. |
| PlotSupport.TickStep | deampy/plots/plot_support.py:50 | Each tick is the previous tick plus delta. |
| PlotSupport.CountOfTicks | deampy/plots/plot_support.py:48-50 | For n > 0: the range holds n ticks (floor((hi - lo)/delta) + 1 = n) if and only if tick n - 1 is at most hi and tick n exceeds it. |
| PlotSupport.TicksAreCounted | deampy/plots/plot_support.py:45-52 | Any run of ticks that stays in range and stops at the first out-of-range tick has TickCount elements. |
| PlotSupport.RemainingShrinks | deampy/plots/plot_support.py:48-50 | Each step removes one from the number of ticks still ahead, so the loop ends for delta > 0. |
| PlotSupport.CalculateTicks | deampy/plots/plot_support.py:45-52 | Returns [] when interval[0] > interval[1], and otherwise starts at interval[0]. The k-th tick is interval[0] + k delta and every tick is at most interval[1]. The next tick would exceed it. For delta > 0 the result has floor((hi - lo)/delta) + 1 ticks. |

## Left out

**Samplers**
- The samplers themselves are outside this model. `Empirical` and `Exponential` come from deampy/random_variates.py, which is not part of this model, and `Sampler` stands in for both. `Sound` states only that a draw lands on a positively weighted entry and that a holding time is non-negative. Distributional claims such as convergence to the row probabilities are not modelled.
- Markov.MarkovJumpProcess.GetNextState: the `rng=None` default (`deampy/markov.py:58`) is not modelled. The random source is always an explicit parameter, and what the samplers do without a generator belongs to deampy/random_variates.py.

**Floating point and numpy**
- All arithmetic is exact reals, and `exp`/`ln` are parameters. Rounding is not modelled:
  - `continuous_to_discrete` rows sum to 1 exactly here;
  - the ticks of `calculate_ticks` are exactly lo + k·delta, whereas Python's repeated `v += delta` accumulates rounding;
  - NaN and infinities do not arise, apart from the -inf/+inf seeds of the frontier searches, which are modelled.
- The approximate round trip of `continuous_to_discrete` and `discrete_to_continuous` for small Δt is not claimed. ConvertedOutRate states the exact relation for one row instead.
- `convert_lists_to_arrays` is not modelled. It keeps every value but turns `xs`, `ys`, `frontierXs` and `frontierYs` into numpy arrays, which have no `append`.
- EconEvalSupport.UpdateCurvesWithHighestValues: the model does not capture that the source converts every curve's lists to arrays at the end (`deampy/support/econ_eval_support.py:121-122`). A second search on the same curves then raises AttributeError at the first append (`:118`), but the model lets it append again.
- EconEvalSupport.UpdateCurvesWithLowestValues: the same, for `:148-149` and the append at `:145`.
- EconEvalSupport.ExpHealthCurve.UpdateFeasibility: the model does not capture that it would raise AttributeError at `:286` if its curve had been through a frontier search, whose conversion leaves `xs` an array.

**Type checks**
- The source's type assertions are enforced by Dafny's types instead: the enum type, `list` and `isinstance`.

**Preconditions in place of crashes**
- In each of these cases the source fails with a Python exception, or with a numpy inf/NaN, rather than a checked error:
  - ContinuousToDiscrete: requires a non-empty matrix, because `max([])` raises. It also requires rows no longer than the number of states (`probs_out[j]` would raise IndexError) and present off-diagonal rates wherever the out-rate is positive (arithmetic on None raises TypeError).
  - Markov.Gillespie.Create: requires present off-diagonal rates in each row with a positive out-rate that the construction reaches, meaning no negative rate in that row or an earlier one. `np.array(rates) / rate_out` fails on None (`deampy/markov.py:132`). A row after the first negative rate is unconstrained, because the source raises the checked ValueError first (`:111-114`).
  - MarkovRates.DiscreteToContinuous: requires each row to reach its diagonal entry, because otherwise `trans_prob_matrix[i][i]` raises IndexError. It also requires dt != 0. With dt = 0 the numpy division at `deampy/markov.py:276` does not raise: it gives inf or NaN with a RuntimeWarning, which a model over reals cannot express.
  - Markov.MarkovJumpProcess.CurrentState: requires descriptions whenever a label is passed. Without descriptions `self._states` does not exist and raises AttributeError.
  - EconEvalSupport.UpdateCurvesWithHighestValues and EconEvalSupport.UpdateCurvesWithLowestValues: require at least one curve when there is a threshold, because `curves[0]` raises IndexError. They also require every curve's ys to cover all thresholds.
  - PlotSupport.CalculateTicks: requires delta > 0 unless the range is empty, because the Python loop never ends otherwise.

**Class structure**
- Subclasses of `_Curve` are modelled by composition. INMBCurve and ExpHealthCurve hold a `Curve` object rather than inheriting from it.
- ExpHealthCurve keeps its error lists as its own fields, as lists of optional reals, because `update_feasibility` appends `None` when there is no interval.

**Statistics and thresholds**
- The confidence level α = 0.05 sits inside the statistics functions (`ci`, `pi`, `tCI`). The statistics classes of deampy/econ_eval and deampy/statistics are not part of this model.
- These other functions of the same two files are not modelled:
  - `assert_np_list`, `get_d_cost`, `get_d_effect`, `get_index`;
  - `find_intersecting_wtp`, which relies on scipy's numeric minimizer;
  - `utility_sample_stat`, which samples at random and builds summary statistics;
  - `INMBCurve.get_switch_wtp` and `INMBCurve.get_switch_wtp_and_interval`, which forward to the statistics classes;
  - AcceptabilityCurve, ExpectedLossCurve and EVPI;
  - the plotting helpers other than `calculate_ticks`.
