/**
 * The module-level functions of deampy/markov.py: `out_rate`, and the two
 * conversions between a transition rate matrix and a transition probability
 * matrix for a time step `delta_t`. A rate matrix entry is `Some(rate)` or
 * `None` (the "not applicable" marker, conventionally on the diagonal).
 * `np.exp` and `np.log` are the parameters `exp` and `ln`.
 */
module MarkovRates {
  import opened Wrappers
  import opened Numerics

  type RateRow = seq<Option<real>>
  type RateMatrix = seq<RateRow>

  /** The rate an entry contributes to a sum: its value, or 0 for None. */
  function RateValue(v: Option<real>): real
  {
    if v.Some? then v.value else 0.0
  }

  /** What position k of a row adds to the rate out of state idx. */
  function Contribution(rates: RateRow, idx: int, k: nat): real
    requires k < |rates|
  {
    if k != idx then RateValue(rates[k]) else 0.0
  }

  /**
   * The total rate out of state idx: the sum of the row's entries, except
   * position idx and None entries. Like Sum, it is not itself recursive.
   */
  function TotalOutRate(rates: RateRow, idx: int): real
  {
    OutRateLeft(rates, idx)
  }

  /** The out rate accumulated left to right, as `out_rate` does. */
  function OutRateLeft(rates: RateRow, idx: int): real
  {
    if |rates| == 0 then 0.0
    else OutRateLeft(rates[..|rates| - 1], idx) + Contribution(rates, idx, |rates| - 1)
  }

  /** Every rate that is present is non-negative. */
  ghost predicate NonNegativeRow(rates: RateRow)
  {
    forall j :: 0 <= j < |rates| && rates[j].Some? ==> rates[j].value >= 0.0
  }

  ghost predicate NonNegativeRates(m: RateMatrix)
  {
    forall i :: 0 <= i < |m| ==> NonNegativeRow(m[i])
  }

  /**
   * The source divides every off-diagonal entry of a row with a positive out
   * rate; such an entry must therefore be a number, not None.
   */
  ghost predicate UsedRatesPresent(m: RateMatrix)
  {
    forall i, j :: 0 <= i < |m| && 0 <= j < |m[i]| && j != i && TotalOutRate(m[i], i) > 0.0 ==> m[i][j].Some?
  }

  /** `out_rate(rates, idx)`: the accumulating loop over the row. */
  method OutRate(rates: RateRow, idx: int) returns (sumRates: real)
    ensures sumRates == TotalOutRate(rates, idx)
  {
    sumRates := 0.0;
    for i := 0 to |rates|
      invariant sumRates == TotalOutRate(rates[..i], idx)
    {
      assert rates[..i + 1][..i] == rates[..i];
      if i != idx && rates[i].Some? {
        sumRates := sumRates + rates[i].value;
      }
    }
    assert rates[..|rates|] == rates;
  }

  /** The sum of every present entry of a row, the self position included. */
  function SumPresent(rates: RateRow): real
  {
    if |rates| == 0 then 0.0 else SumPresent(rates[..|rates| - 1]) + RateValue(rates[|rates| - 1])
  }

  /** The out rate is the sum of all present entries less the entry at the self position. */
  lemma {:induction false} OutRateExcludesSelf(rates: RateRow, idx: int)
    ensures TotalOutRate(rates, idx)
         == SumPresent(rates) - (if 0 <= idx < |rates| then RateValue(rates[idx]) else 0.0)
  {
    if |rates| > 0 {
      var prefix := rates[..|rates| - 1];
      OutRateExcludesSelf(prefix, idx);
      if 0 <= idx < |prefix| {
        assert prefix[idx] == rates[idx];
      }
    }
  }

  /** Whatever stands at the self position (a rate or None) does not change the out rate. */
  lemma {:induction false} OutRateIgnoresSelf(rates: RateRow, idx: nat, v: Option<real>)
    requires idx < |rates|
    ensures TotalOutRate(rates[idx := v], idx) == TotalOutRate(rates, idx)
  {
    var n := |rates|;
    var changed := rates[idx := v];
    if idx < n - 1 {
      assert changed[..n - 1] == rates[..n - 1][idx := v];
      OutRateIgnoresSelf(rates[..n - 1], idx, v);
    } else {
      assert changed[..n - 1] == rates[..n - 1];
    }
  }

  /** Non-negative rates give a non-negative out rate. */
  lemma {:induction false} OutRateNonNegative(rates: RateRow, idx: int)
    requires NonNegativeRow(rates)
    ensures TotalOutRate(rates, idx) >= 0.0
  {
    if |rates| > 0 {
      OutRateNonNegative(rates[..|rates| - 1], idx);
    }
  }

  // ---------------------------------------------------------------------
  // continuous_to_discrete

  /**
   * Entry (i, j) of the probability matrix for a time step dt, with mu the
   * out rate of state i: exp(-mu*dt) on the diagonal, and
   * (1 - exp(-mu*dt)) * r_ij / mu off the diagonal when mu > 0, else 0.
   */
  function DiscreteProb(m: RateMatrix, exp: real -> real, dt: real, i: nat, j: nat): real
    requires i < |m| && j < |m[i]|
  {
    if i == j then StayProb(m, exp, dt, i)
    else if RateOut(m, i) > 0.0 then
      (1.0 - StayProb(m, exp, dt, i)) * RateValue(m[i][j]) / RateOut(m, i)
    else 0.0
  }

  /** p has the shape of m and holds the entries DiscreteProb gives. */
  ghost predicate IsDiscretization(m: RateMatrix, exp: real -> real, dt: real, p: seq<seq<real>>)
  {
    && |p| == |m|
    && (forall i :: 0 <= i < |m| ==> |p[i]| == |m[i]|)
    && forall i, j :: 0 <= i < |m| && 0 <= j < |m[i]| ==> p[i][j] == DiscreteProb(m, exp, dt, i, j)
  }

  /** The out rate of state i of the matrix. */
  function RateOut(m: RateMatrix, i: nat): real
    requires i < |m|
  {
    TotalOutRate(m[i], i)
  }

  /** `np.exp(-rate * delta_t)`: the probability that a sojourn at this rate outlasts dt. */
  function StayProbability(exp: real -> real, rate: real, dt: real): real
  {
    exp(-rate * dt)
  }

  /** `1 - np.exp(-delta_t * rate)`: the probability that a sojourn at this rate ends within dt. */
  function LeaveProbability(exp: real -> real, rate: real, dt: real): real
  {
    1.0 - exp(-dt * rate)
  }

  /** A state that cannot be left is kept throughout dt. */
  lemma StayAtZeroRate(exp: real -> real, rate: real, dt: real)
    requires ExpLaws(exp) && rate == 0.0
    ensures StayProbability(exp, rate, dt) == 1.0
    ensures LeaveProbability(exp, rate, dt) == 0.0
  {
    SameArgument(exp, -rate * dt, 0.0);
    SameArgument(exp, -dt * rate, 0.0);
  }

  /** For a non-negative rate and time step, leaving within dt has a probability in [0, 1]. */
  lemma LeaveProbabilityBounds(exp: real -> real, rate: real, dt: real)
    requires ExpLaws(exp) && rate >= 0.0 && dt >= 0.0
    ensures 0.0 <= LeaveProbability(exp, rate, dt) <= 1.0
  {
    assert -dt * rate <= 0.0 && -rate * dt <= 0.0;
  }

  /** The probability of staying in state i throughout dt. */
  function StayProb(m: RateMatrix, exp: real -> real, dt: real, i: nat): real
    requires i < |m|
  {
    StayProbability(exp, RateOut(m, i), dt)
  }

  /** The probability of leaving state k within dt, as the source's `probs_out` writes it. */
  function ProbOut(m: RateMatrix, exp: real -> real, dt: real, k: nat): real
    requires k < |m|
  {
    LeaveProbability(exp, RateOut(m, k), dt)
  }

  /** The share of the departures from state i that go to j: r_ij / mu_i when mu_i > 0, else 0. */
  function JumpShare(m: RateMatrix, i: nat, j: nat): real
    requires i < |m| && j < |m[i]|
  {
    if RateOut(m, i) > 0.0 then RateValue(m[i][j]) / RateOut(m, i) else 0.0
  }

  /** Rows are no longer than the number of states, so every column names a state. */
  ghost predicate ColumnsAreStates(m: RateMatrix)
  {
    forall i :: 0 <= i < |m| ==> |m[i]| <= |m|
  }

  /**
   * The sum over the first n columns j != i of state i's row of the
   * probability of jumping to j and then leaving j within dt.
   */
  function AgainSum(m: RateMatrix, exp: real -> real, dt: real, i: nat, n: nat): real
    requires i < |m| && n <= |m[i]| && ColumnsAreStates(m)
  {
    if n == 0 then 0.0 else AgainSum(m, exp, dt, i, n - 1) + AgainTerm(m, exp, dt, i, n - 1)
  }

  /** Column j's term of AgainSum: the share of j times the probability of leaving j, or 0 at j == i. */
  function AgainTerm(m: RateMatrix, exp: real -> real, dt: real, i: nat, j: nat): real
    requires i < |m| && j < |m[i]| && ColumnsAreStates(m)
  {
    if j == i then 0.0 else JumpShare(m, i, j) * ProbOut(m, exp, dt, j)
  }

  /** The probability, having left state i, of leaving the state entered within dt. */
  function AgainProb(m: RateMatrix, exp: real -> real, dt: real, i: nat): real
    requires i < |m| && ColumnsAreStates(m)
  {
    AgainSum(m, exp, dt, i, |m[i]|)
  }

  /** The probability of leaving state i and then leaving the state entered, both within dt. */
  function DoubleJump(m: RateMatrix, exp: real -> real, dt: real, i: nat): real
    requires i < |m| && ColumnsAreStates(m)
  {
    ProbOut(m, exp, dt, i) * AgainProb(m, exp, dt, i)
  }

  /**
   * `continuous_to_discrete(trans_rate_matrix, delta_t)`: the probability
   * matrix and the largest probability of two transitions within delta_t.
   * When the rates are non-negative, every row that holds its diagonal sums
   * to 1, and for a non-negative time step the bound lies in [0, 1]. The
   * source's four loops are the four methods it calls.
   */
  method ContinuousToDiscrete(m: RateMatrix, deltaT: real, exp: real -> real)
    returns (probMatrix: seq<seq<real>>, bound: real)
    requires |m| > 0
    requires ColumnsAreStates(m)
    requires UsedRatesPresent(m)
    ensures IsDiscretization(m, exp, deltaT, probMatrix)
    ensures forall i :: 0 <= i < |m| ==> DoubleJump(m, exp, deltaT, i) <= bound
    ensures exists i :: 0 <= i < |m| && bound == DoubleJump(m, exp, deltaT, i)
    ensures ExpLaws(exp) && NonNegativeRates(m) ==>
              forall i :: 0 <= i < |m| && i < |m[i]| ==> Sum(probMatrix[i]) == 1.0
    ensures ExpLaws(exp) && NonNegativeRates(m) && deltaT >= 0.0 ==> 0.0 <= bound <= 1.0
  {
    var ratesOut := RatesOut(m);
    probMatrix := ProbabilityMatrix(m, ratesOut, deltaT, exp);
    var probsOut := DepartureProbabilities(m, ratesOut, deltaT, exp);
    var probOutOut := DoubleJumpProbabilities(m, ratesOut, probsOut, deltaT, exp);
    bound := MaxOf(probOutOut);

    if ExpLaws(exp) && NonNegativeRates(m) {
      forall i | 0 <= i < |m| && i < |m[i]|
        ensures Sum(probMatrix[i]) == 1.0
      {
        DiscreteRowSumsToOne(m, exp, deltaT, probMatrix, i);
      }
      if deltaT >= 0.0 {
        var k :| 0 <= k < |probOutOut| && probOutOut[k] == bound;
        DoubleJumpInUnitInterval(m, exp, deltaT, k);
      }
    }
  }

  /** The list of rates out of each row. */
  method RatesOut(m: RateMatrix) returns (ratesOut: seq<real>)
    ensures |ratesOut| == |m|
    ensures forall k :: 0 <= k < |m| ==> ratesOut[k] == RateOut(m, k)
  {
    ratesOut := [];
    for i := 0 to |m|
      invariant |ratesOut| == i
      invariant forall k :: 0 <= k < i ==> ratesOut[k] == RateOut(m, k)
    {
      var r := OutRate(m[i], i);
      ratesOut := ratesOut + [r];
    }
  }

  /** The probability matrix, row by row and entry by entry, from the rates out of each row. */
  method ProbabilityMatrix(m: RateMatrix, ratesOut: seq<real>, deltaT: real, exp: real -> real)
    returns (probMatrix: seq<seq<real>>)
    requires UsedRatesPresent(m)
    requires |ratesOut| == |m| && forall k :: 0 <= k < |m| ==> ratesOut[k] == RateOut(m, k)
    ensures IsDiscretization(m, exp, deltaT, probMatrix)
  {
    probMatrix := [];
    for i := 0 to |m|
      invariant |probMatrix| == i
      invariant forall k :: 0 <= k < i ==> |probMatrix[k]| == |m[k]|
      invariant forall k, j :: 0 <= k < i && 0 <= j < |m[k]| ==> probMatrix[k][j] == DiscreteProb(m, exp, deltaT, k, j)
    {
      var probRow: seq<real> := [];
      for j := 0 to |m[i]|
        invariant |probRow| == j
        invariant forall l :: 0 <= l < j ==> probRow[l] == DiscreteProb(m, exp, deltaT, i, l)
      {
        var prob := 0.0;
        if i == j {
          prob := StayProbability(exp, ratesOut[i], deltaT);
        } else if ratesOut[i] > 0.0 {
          prob := (1.0 - StayProbability(exp, ratesOut[i], deltaT)) * m[i][j].value / ratesOut[i];
          SameShare(1.0 - StayProbability(exp, ratesOut[i], deltaT), m[i][j].value, ratesOut[i],
                    1.0 - StayProb(m, exp, deltaT, i), RateValue(m[i][j]), RateOut(m, i));
        }
        probRow := probRow + [prob];
      }
      probMatrix := probMatrix + [probRow];
    }
  }

  /** The probability that a transition occurs within delta_t, per state. */
  method DepartureProbabilities(m: RateMatrix, ratesOut: seq<real>, deltaT: real, exp: real -> real)
    returns (probsOut: seq<real>)
    requires |ratesOut| == |m| && forall k :: 0 <= k < |m| ==> ratesOut[k] == RateOut(m, k)
    ensures |probsOut| == |m|
    ensures forall l :: 0 <= l < |m| ==> probsOut[l] == ProbOut(m, exp, deltaT, l)
  {
    probsOut := [];
    for k := 0 to |ratesOut|
      invariant |probsOut| == k
      invariant forall l :: 0 <= l < k ==> probsOut[l] == ProbOut(m, exp, deltaT, l)
    {
      probsOut := probsOut + [LeaveProbability(exp, ratesOut[k], deltaT)];
    }
  }

  /** The probability of two transitions within delta_t, per state. */
  method DoubleJumpProbabilities(m: RateMatrix, ratesOut: seq<real>, probsOut: seq<real>, deltaT: real, exp: real -> real)
    returns (probOutOut: seq<real>)
    requires ColumnsAreStates(m) && UsedRatesPresent(m)
    requires |ratesOut| == |m| && forall k :: 0 <= k < |m| ==> ratesOut[k] == RateOut(m, k)
    requires |probsOut| == |m| && forall l :: 0 <= l < |m| ==> probsOut[l] == ProbOut(m, exp, deltaT, l)
    ensures |probOutOut| == |m|
    ensures forall k :: 0 <= k < |m| ==> probOutOut[k] == DoubleJump(m, exp, deltaT, k)
  {
    probOutOut := [];
    for i := 0 to |m|
      invariant |probOutOut| == i
      invariant forall k :: 0 <= k < i ==> probOutOut[k] == DoubleJump(m, exp, deltaT, k)
    {
      var probOutI := probsOut[i];
      var probOutAgain := LeaveAgain(m, ratesOut, probsOut, deltaT, exp, i);
      SameProduct(probOutI, probOutAgain, ProbOut(m, exp, deltaT, i), AgainProb(m, exp, deltaT, i));
      probOutOut := probOutOut + [probOutI * probOutAgain];
    }
  }

  /** The probability of leaving again after the first jump out of state i. */
  method LeaveAgain(m: RateMatrix, ratesOut: seq<real>, probsOut: seq<real>, deltaT: real, exp: real -> real, i: nat)
    returns (probOutAgain: real)
    requires i < |m|
    requires ColumnsAreStates(m) && UsedRatesPresent(m)
    requires |ratesOut| == |m| && ratesOut[i] == RateOut(m, i)
    requires |probsOut| == |m| && forall l :: 0 <= l < |m| ==> probsOut[l] == ProbOut(m, exp, deltaT, l)
    ensures probOutAgain == AgainProb(m, exp, deltaT, i)
  {
    probOutAgain := 0.0;
    for j := 0 to |m[i]|
      invariant probOutAgain == AgainSum(m, exp, deltaT, i, j)
    {
      if i != j {
        var probIJ := 0.0;
        if ratesOut[i] > 0.0 {
          probIJ := m[i][j].value / ratesOut[i];
          SameShare(1.0, m[i][j].value, ratesOut[i], 1.0, RateValue(m[i][j]), RateOut(m, i));
        }
        var probIJOut := probIJ * probsOut[j];
        SameProduct(probIJ, probsOut[j], JumpShare(m, i, j), ProbOut(m, exp, deltaT, j));
        probOutAgain := probOutAgain + probIJOut;
      }
    }
  }

  /** Off the diagonal, entry (i, j) is the probability of leaving i times the share of j. */
  lemma DiscreteProbFactors(m: RateMatrix, exp: real -> real, dt: real, i: nat, j: nat)
    requires i < |m| && j < |m[i]| && j != i
    ensures DiscreteProb(m, exp, dt, i, j) == (1.0 - StayProb(m, exp, dt, i)) * JumpShare(m, i, j)
  {
    var mu := RateOut(m, i);
    if mu > 0.0 {
      MulDivAssoc(1.0 - StayProb(m, exp, dt, i), RateValue(m[i][j]), mu);
    }
  }

  /** The jump shares of row i as a list, 0 at the self position. */
  function Shares(m: RateMatrix, i: nat): (s: seq<real>)
    requires i < |m|
    ensures |s| == |m[i]|
  {
    seq(|m[i]|, j requires 0 <= j < |m[i]| => if j == i then 0.0 else JumpShare(m, i, j))
  }

  /** The shares of the first n columns are the share of the out rate those columns carry. */
  lemma {:induction false} SharesPrefixIsRateShare(m: RateMatrix, i: nat, n: nat)
    requires i < |m| && n <= |m[i]|
    ensures Sum(Shares(m, i)[..n])
         == if RateOut(m, i) > 0.0 then TotalOutRate(m[i][..n], i) / RateOut(m, i) else 0.0
  {
    if n > 0 {
      var j := n - 1;
      SharesPrefixIsRateShare(m, i, j);
      SumPrefixStep(Shares(m, i), j);
      assert m[i][..n][..j] == m[i][..j];
      var mu := RateOut(m, i);
      if mu > 0.0 {
        DivAdd(TotalOutRate(m[i][..j], i), Contribution(m[i][..n], i, j), mu);
      }
    }
  }

  /** The shares of a whole row add up to 1 when the state can be left, and to 0 otherwise. */
  lemma RowSharesSumToOne(m: RateMatrix, i: nat)
    requires i < |m|
    ensures Sum(Shares(m, i)) == if RateOut(m, i) > 0.0 then 1.0 else 0.0
  {
    SharesPrefixIsRateShare(m, i, |m[i]|);
    assert m[i][..|m[i]|] == m[i];
    assert Shares(m, i)[..|m[i]|] == Shares(m, i);
    if RateOut(m, i) > 0.0 {
      DivSelf(RateOut(m, i));
    }
  }

  /** A row of a discretisation that holds its diagonal sums to e + (1 - e) times the row's shares. */
  lemma DiscreteRowSum(m: RateMatrix, exp: real -> real, dt: real, p: seq<seq<real>>, i: nat)
    requires IsDiscretization(m, exp, dt, p)
    requires i < |m| && i < |m[i]|
    ensures Sum(p[i]) == StayProb(m, exp, dt, i) + (1.0 - StayProb(m, exp, dt, i)) * Sum(Shares(m, i))
  {
    DiscreteRowFactors(m, exp, dt, p, i);
    SplitSum(p[i], Shares(m, i), StayProb(m, exp, dt, i), i);
  }

  /** Off the diagonal, row i of a discretization is the leaving probability times the jump shares. */
  lemma DiscreteRowFactors(m: RateMatrix, exp: real -> real, dt: real, p: seq<seq<real>>, i: nat)
    requires IsDiscretization(m, exp, dt, p)
    requires i < |m| && i < |m[i]|
    ensures |p[i]| == |Shares(m, i)| && p[i][i] == StayProb(m, exp, dt, i) && Shares(m, i)[i] == 0.0
    ensures forall j :: 0 <= j < |p[i]| && j != i ==> p[i][j] == (1.0 - StayProb(m, exp, dt, i)) * Shares(m, i)[j]
  {
    forall j | 0 <= j < |p[i]| && j != i
      ensures p[i][j] == (1.0 - StayProb(m, exp, dt, i)) * Shares(m, i)[j]
    {
      DiscreteProbFactors(m, exp, dt, i, j);
    }
  }

  /** With non-negative rates, each row that holds its diagonal entry sums to 1. */
  lemma DiscreteRowSumsToOne(m: RateMatrix, exp: real -> real, dt: real, p: seq<seq<real>>, i: nat)
    requires IsDiscretization(m, exp, dt, p)
    requires ExpLaws(exp) && NonNegativeRates(m)
    requires i < |m| && i < |m[i]|
    ensures Sum(p[i]) == 1.0
  {
    DiscreteRowSum(m, exp, dt, p, i);
    RowSharesSumToOne(m, i);
    OutRateNonNegative(m[i], i);
    if RateOut(m, i) <= 0.0 {
      StayAtZeroRate(exp, RateOut(m, i), dt);
    }
  }

  /** With a non-negative time step and non-negative rates, leaving a state within dt has a probability in [0, 1]. */
  lemma ProbOutInUnitInterval(m: RateMatrix, exp: real -> real, dt: real, k: nat)
    requires k < |m| && ExpLaws(exp) && NonNegativeRates(m) && dt >= 0.0
    ensures 0.0 <= ProbOut(m, exp, dt, k) <= 1.0
  {
    OutRateNonNegative(m[k], k);
    LeaveProbabilityBounds(exp, RateOut(m, k), dt);
  }

  /** Each term of AgainSum lies between 0 and the share of its column. */
  lemma AgainTermBounds(m: RateMatrix, exp: real -> real, dt: real, i: nat, j: nat)
    requires i < |m| && j < |m[i]| && ColumnsAreStates(m)
    requires ExpLaws(exp) && NonNegativeRates(m) && dt >= 0.0
    ensures 0.0 <= AgainTerm(m, exp, dt, i, j) <= Shares(m, i)[j]
  {
    if j != i {
      ProbOutInUnitInterval(m, exp, dt, j);
      assert NonNegativeRow(m[i]);
      if RateOut(m, i) > 0.0 {
        DivNonNegative(RateValue(m[i][j]), RateOut(m, i));
      }
      ScaleDown(JumpShare(m, i, j), ProbOut(m, exp, dt, j));
    }
  }

  /** The first n terms of AgainSum lie between 0 and the shares of those columns. */
  lemma {:induction false} AgainSumBounds(m: RateMatrix, exp: real -> real, dt: real, i: nat, n: nat)
    requires i < |m| && n <= |m[i]| && ColumnsAreStates(m)
    requires ExpLaws(exp) && NonNegativeRates(m) && dt >= 0.0
    ensures 0.0 <= AgainSum(m, exp, dt, i, n) <= Sum(Shares(m, i)[..n])
  {
    if n > 0 {
      AgainSumBounds(m, exp, dt, i, n - 1);
      SumPrefixStep(Shares(m, i), n - 1);
      AgainTermBounds(m, exp, dt, i, n - 1);
    }
  }

  /** The probability of two transitions within a non-negative time step lies in [0, 1]. */
  lemma DoubleJumpInUnitInterval(m: RateMatrix, exp: real -> real, dt: real, i: nat)
    requires i < |m| && ColumnsAreStates(m)
    requires ExpLaws(exp) && NonNegativeRates(m) && dt >= 0.0
    ensures 0.0 <= DoubleJump(m, exp, dt, i) <= 1.0
  {
    var q, a := ProbOut(m, exp, dt, i), AgainProb(m, exp, dt, i);
    ProbOutInUnitInterval(m, exp, dt, i);
    AgainSumBounds(m, exp, dt, i, |m[i]|);
    assert Shares(m, i)[..|m[i]|] == Shares(m, i);
    RowSharesSumToOne(m, i);
    assert 0.0 <= q <= 1.0 && 0.0 <= a <= 1.0;
    ScaleDown(q, a);
  }

  /** An absorbing state (out rate 0) never contributes a double jump. */
  lemma AbsorbingStateHasNoDoubleJump(m: RateMatrix, exp: real -> real, dt: real, i: nat)
    requires i < |m| && ColumnsAreStates(m)
    requires ExpLaws(exp) && RateOut(m, i) == 0.0
    ensures DoubleJump(m, exp, dt, i) == 0.0
  {
    StayAtZeroRate(exp, RateOut(m, i), dt);
  }

  // ---------------------------------------------------------------------
  // discrete_to_continuous

  /** Row i either is empty or reaches its diagonal entry, which the source reads. */
  ghost predicate DiagonalsPresent(p: seq<seq<real>>)
  {
    forall i :: 0 <= i < |p| ==> |p[i]| == 0 || i < |p[i]|
  }

  /**
   * The rate for the off-diagonal entry (i, j): 0 when p_ii is exactly 1,
   * else -ln(p_ii) * p_ij / ((1 - p_ii) * dt).
   */
  function RateFromProb(p: seq<seq<real>>, ln: real -> real, dt: real, i: nat, j: nat): real
    requires i < |p| && i < |p[i]| && j < |p[i]| && dt != 0.0
  {
    if p[i][i] == 1.0 then 0.0
    else -ln(p[i][i]) * p[i][j] / ((1.0 - p[i][i]) * dt)
  }

  /** r has the shape of p, None on the diagonal and RateFromProb elsewhere. */
  ghost predicate IsRateConversion(p: seq<seq<real>>, ln: real -> real, dt: real, r: RateMatrix)
    requires DiagonalsPresent(p) && dt != 0.0
  {
    && |r| == |p|
    && (forall i :: 0 <= i < |p| ==> |r[i]| == |p[i]|)
    && (forall i :: 0 <= i < |p| && i < |p[i]| ==> r[i][i].None?)
    && forall i, j :: 0 <= i < |p| && 0 <= j < |p[i]| && j != i ==> r[i][j] == Some(RateFromProb(p, ln, dt, i, j))
  }

  /**
   * `discrete_to_continuous(trans_prob_matrix, delta_t)`: the rate matrix.
   * For probabilities with 0 < p_ii <= 1 and a positive time step, every
   * rate is non-negative.
   */
  method DiscreteToContinuous(p: seq<seq<real>>, deltaT: real, ln: real -> real) returns (rateMatrix: RateMatrix)
    requires DiagonalsPresent(p)
    requires deltaT != 0.0
    ensures IsRateConversion(p, ln, deltaT, rateMatrix)
    ensures LnLaws(ln) && deltaT > 0.0 && ProbabilityLike(p) ==> NonNegativeRates(rateMatrix)
  {
    rateMatrix := [];
    for i := 0 to |p|
      invariant |rateMatrix| == i
      invariant forall k :: 0 <= k < i ==> |rateMatrix[k]| == |p[k]|
      invariant forall k :: 0 <= k < i && k < |p[k]| ==> rateMatrix[k][k].None?
      invariant forall k, j :: 0 <= k < i && 0 <= j < |p[k]| && j != k ==> rateMatrix[k][j] == Some(RateFromProb(p, ln, deltaT, k, j))
    {
      var row := p[i];
      var rateRow: RateRow := [];
      for j := 0 to |row|
        invariant |rateRow| == j
        invariant i < j ==> rateRow[i].None?
        invariant forall l :: 0 <= l < j && l != i ==> rateRow[l] == Some(RateFromProb(p, ln, deltaT, i, l))
      {
        var rate: Option<real>;
        if i == j {
          rate := None;
        } else {
          assert i < |p[i]|;
          if p[i][i] == 1.0 {
            rate := Some(0.0);
          } else {
            rate := Some(-ln(p[i][i]) * p[i][j] / ((1.0 - p[i][i]) * deltaT));
          }
          assert rate == Some(RateFromProb(p, ln, deltaT, i, j));
        }
        rateRow := rateRow + [rate];
      }
      rateMatrix := rateMatrix + [rateRow];
    }
    if LnLaws(ln) && deltaT > 0.0 && ProbabilityLike(p) {
      forall i, j | 0 <= i < |p| && 0 <= j < |p[i]| && j != i
        ensures RateFromProb(p, ln, deltaT, i, j) >= 0.0
      {
        ConvertedRateNonNegative(p, ln, deltaT, i, j);
      }
    }
  }

  /** Entries are non-negative and each diagonal entry lies in (0, 1]. */
  ghost predicate ProbabilityLike(p: seq<seq<real>>)
  {
    && (forall i, j :: 0 <= i < |p| && 0 <= j < |p[i]| ==> p[i][j] >= 0.0)
    && forall i :: 0 <= i < |p| && i < |p[i]| ==> 0.0 < p[i][i] <= 1.0
  }

  /** The factor -ln(p_ii) / ((1 - p_ii) * dt) that turns p_ij into a rate. */
  function RateFactor(x: real, ln: real -> real, dt: real): real
    requires x != 1.0 && dt != 0.0
  {
    -ln(x) / ((1.0 - x) * dt)
  }

  /** Off the diagonal of a row whose p_ii is not 1, the rate is the row's factor times p_ij. */
  lemma RateFromProbFactors(p: seq<seq<real>>, ln: real -> real, dt: real, i: nat, j: nat)
    requires i < |p| && i < |p[i]| && j < |p[i]| && dt != 0.0 && p[i][i] != 1.0
    ensures RateFromProb(p, ln, dt, i, j) == RateFactor(p[i][i], ln, dt) * p[i][j]
  {
    var x := p[i][i];
    assert (1.0 - x) * dt != 0.0;
    var l, d := -ln(x), (1.0 - x) * dt;
    assert l * p[i][j] / d == (l / d) * p[i][j] by {
      assert l * p[i][j] == (l / d) * d * p[i][j];
    }
  }

  /** With 0 < p_ii <= 1, p_ij >= 0 and dt > 0, the converted rate is non-negative. */
  lemma ConvertedRateNonNegative(p: seq<seq<real>>, ln: real -> real, dt: real, i: nat, j: nat)
    requires i < |p| && i < |p[i]| && j < |p[i]|
    requires LnLaws(ln) && dt > 0.0
    requires 0.0 < p[i][i] <= 1.0 && p[i][j] >= 0.0
    ensures RateFromProb(p, ln, dt, i, j) >= 0.0
  {
    var x := p[i][i];
    if x != 1.0 {
      RateFromProbFactors(p, ln, dt, i, j);
      assert -ln(x) > 0.0;
      ProductNonNegative(1.0 - x, dt);
      DivNonNegative(-ln(x), (1.0 - x) * dt);
      ProductNonNegative(RateFactor(x, ln, dt), p[i][j]);
    }
  }

  /** A row with p_ii exactly 1 (absorbing in discrete time) gets only zero rates off the diagonal. */
  lemma AbsorbingRowHasZeroRates(p: seq<seq<real>>, ln: real -> real, dt: real, r: RateMatrix, i: nat)
    requires DiagonalsPresent(p) && dt != 0.0 && IsRateConversion(p, ln, dt, r)
    requires i < |p| && i < |p[i]| && p[i][i] == 1.0
    ensures forall j :: 0 <= j < |r[i]| && j != i ==> r[i][j] == Some(0.0)
  {
  }

  /**
   * When row i sums to 1 and p_ii is not 1, the converted row's out rate is
   * -ln(p_ii) / dt: the rate of an exponential sojourn that stays in i
   * throughout dt with probability p_ii.
   */
  lemma ConvertedOutRate(p: seq<seq<real>>, ln: real -> real, dt: real, r: RateMatrix, i: nat)
    requires DiagonalsPresent(p) && dt != 0.0 && IsRateConversion(p, ln, dt, r)
    requires i < |p| && i < |p[i]| && p[i][i] != 1.0 && Sum(p[i]) == 1.0
    ensures TotalOutRate(r[i], i) == -ln(p[i][i]) / dt
  {
    var f := RateFactor(p[i][i], ln, dt);
    forall j | 0 <= j < |r[i]| && j != i
      ensures r[i][j].Some? && r[i][j].value == f * p[i][j]
    {
      assert r[i][j] == Some(RateFromProb(p, ln, dt, i, j));
      RateFromProbFactors(p, ln, dt, i, j);
    }
    ScaledOutRatePrefix(r[i], p[i], f, i, |p[i]|);
    assert p[i][..|p[i]|] == p[i];
    assert r[i][..|p[i]|] == r[i];
    CancelFactor(-ln(p[i][i]), p[i][i], dt);
  }

  /**
   * The out rate over the first n entries of a row whose entries off the self
   * position are f times the matching probabilities: f times their sum.
   */
  lemma {:induction false} ScaledOutRatePrefix(rates: RateRow, probs: seq<real>, f: real, idx: nat, n: nat)
    requires |rates| == |probs| && n <= |rates|
    requires forall j :: 0 <= j < |rates| && j != idx ==> rates[j].Some? && rates[j].value == f * probs[j]
    ensures TotalOutRate(rates[..n], idx) == f * (Sum(probs[..n]) - (if idx < n then probs[idx] else 0.0))
  {
    if n > 0 {
      var j := n - 1;
      ScaledOutRatePrefix(rates, probs, f, idx, j);
      SumPrefixStep(probs, j);
      assert rates[..n][..j] == rates[..j];
      if j != idx {
        var below := Sum(probs[..j]) - (if idx < j then probs[idx] else 0.0);
        assert f * below + f * probs[j] == f * (below + probs[j]);
      }
    }
  }
}
