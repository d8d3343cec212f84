/**
 * The two Markov processes of deampy/markov.py: `MarkovJumpProcess`, a
 * discrete-time process over a transition probability matrix, and
 * `Gillespie`, a continuous-time process over a transition rate matrix.
 * Both can carry state labels checked by `_Markov`. Construction errors and
 * failing queries are `Failure` results; the samplers are a `Sampler`, and
 * the random number generator a `RandomSource` whose draws are counted.
 */
module Markov {
  import opened Wrappers
  import opened Numerics
  import opened Sampling
  import opened MarkovRates

  /** One member of a state enumeration: its name and its value. */
  datatype StateLabel = StateLabel(name: string, value: int)

  /** The errors the two processes raise. */
  datatype MarkovError =
    | StateCountMismatch(labels: nat, states: nat)        // the label count differs from the row count
    | StateMisindexed(position: nat, value: int)          // the label at a position has another value
    | RowSumNotOne(row: nat, sum: real)                   // a probability row sums outside the tolerance
    | EmptyRateMatrix                                     // a rate matrix without rows
    | NegativeRate(row: nat, rate: real)                  // a negative rate in a row
    | NoCurrentState                                      // neither an index nor a label was given
    | StateIndexOutOfRange(index: int)                    // the index is not that of a state
    | StateNotDescribed(state: StateLabel)                // the label is not one of the process's labels
    | DrawnStateNotDescribed(drawn: nat)                  // the drawn index has no label

  // ---------------------------------------------------------------------
  // _Markov: state descriptions

  /** The labels number the n states 0, 1, 2, ... in order. */
  ghost predicate DescriptionsValid(labels: seq<StateLabel>, n: nat)
  {
    |labels| == n && forall i :: 0 <= i < |labels| ==> labels[i].value == i
  }

  /** Position i is the first whose label has a value other than i. */
  ghost predicate FirstMisindexed(labels: seq<StateLabel>, i: nat)
  {
    i < |labels| && labels[i].value != i && forall k :: 0 <= k < i ==> labels[k].value == k
  }

  /** No labels, or labels that describe the n states. */
  ghost predicate DescriptionsAccepted(descriptions: Option<seq<StateLabel>>, n: nat)
  {
    descriptions.Some? ==> DescriptionsValid(descriptions.value, n)
  }

  /**
   * `_Markov.__init__`: labels, when given, must be as many as the matrix has
   * rows (n), and the label at position i must have the value i. The first
   * problem found is the error.
   */
  method CheckStateDescriptions(n: nat, descriptions: Option<seq<StateLabel>>) returns (o: Outcome<MarkovError>)
    ensures o.Pass? <==> DescriptionsAccepted(descriptions, n)
    ensures descriptions.Some? && |descriptions.value| != n ==>
              o == Fail(StateCountMismatch(|descriptions.value|, n))
    ensures descriptions.Some? && |descriptions.value| == n && o.Fail? ==>
              o.error.StateMisindexed? && FirstMisindexed(descriptions.value, o.error.position)
              && o.error.value == descriptions.value[o.error.position].value
  {
    if descriptions.None? {
      return Pass;
    }
    var labels := descriptions.value;
    if |labels| != n {
      return Fail(StateCountMismatch(|labels|, n));
    }
    for i := 0 to |labels|
      invariant forall k :: 0 <= k < i ==> labels[k].value == k
    {
      if labels[i].value != i {
        return Fail(StateMisindexed(i, labels[i].value));
      }
    }
    return Pass;
  }

  // ---------------------------------------------------------------------
  // MarkovJumpProcess

  /** A row sum the source accepts as 1: within [0.99999, 1.00001]. */
  ghost predicate RowSumAccepted(row: seq<real>)
  {
    0.99999 <= Sum(row) <= 1.00001
  }

  /** Row i is the first whose sum is not accepted. */
  ghost predicate FirstRejectedRow(matrix: seq<seq<real>>, i: nat)
  {
    i < |matrix| && !RowSumAccepted(matrix[i]) && forall k :: 0 <= k < i ==> RowSumAccepted(matrix[k])
  }

  /** What `get_next_state` returns: a state index, or a label when the process has labels. */
  datatype NextState = Index(index: nat) | Label(state: StateLabel)

  /** A process over a transition probability matrix, one empirical distribution per row. */
  class MarkovJumpProcess {
    const states: Option<seq<StateLabel>>
    const empiricalDists: seq<seq<real>>
    const nStates: nat

    /** The labels describe the states, and every row's sum was accepted. */
    ghost predicate Valid()
    {
      && nStates == |empiricalDists|
      && DescriptionsAccepted(states, nStates)
      && forall i :: 0 <= i < |empiricalDists| ==> RowSumAccepted(empiricalDists[i])
    }

    constructor (states: Option<seq<StateLabel>>, empiricalDists: seq<seq<real>>)
      ensures this.states == states && this.empiricalDists == empiricalDists
      ensures nStates == |empiricalDists|
    {
      this.states := states;
      this.empiricalDists := empiricalDists;
      nStates := |empiricalDists|;
    }

    /**
     * `MarkovJumpProcess.__init__`: checks the labels, then the rows in order,
     * each row's sum against [0.99999, 1.00001]. An empty matrix is accepted.
     */
    static method Create(matrix: seq<seq<real>>, descriptions: Option<seq<StateLabel>>)
      returns (r: Result<MarkovJumpProcess, MarkovError>)
      ensures r.Success? <==>
                DescriptionsAccepted(descriptions, |matrix|)
                && forall i :: 0 <= i < |matrix| ==> RowSumAccepted(matrix[i])
      ensures descriptions.Some? && |descriptions.value| != |matrix| ==>
                r == Failure(StateCountMismatch(|descriptions.value|, |matrix|))
      ensures descriptions.Some? && |descriptions.value| == |matrix| && !DescriptionsValid(descriptions.value, |matrix|) ==>
                r.Failure? && r.error.StateMisindexed? && FirstMisindexed(descriptions.value, r.error.position)
      ensures DescriptionsAccepted(descriptions, |matrix|) && r.Failure? ==>
                r.error.RowSumNotOne? && FirstRejectedRow(matrix, r.error.row) && r.error.sum == Sum(matrix[r.error.row])
      ensures r.Success? ==>
                r.value.Valid() && r.value.states == descriptions
                && r.value.empiricalDists == matrix && r.value.nStates == |matrix|
    {
      var checked := CheckStateDescriptions(|matrix|, descriptions);
      if checked.Fail? {
        return Failure(checked.error);
      }
      var empiricalDists: seq<seq<real>> := [];
      for i := 0 to |matrix|
        invariant empiricalDists == matrix[..i]
        invariant forall k :: 0 <= k < i ==> RowSumAccepted(matrix[k])
      {
        var s := Sum(matrix[i]);
        if s < 0.99999 || s > 1.00001 {
          return Failure(RowSumNotOne(i, s));
        }
        empiricalDists := empiricalDists + [matrix[i]];
      }
      assert empiricalDists == matrix;
      var process := new MarkovJumpProcess(descriptions, empiricalDists);
      return Success(process);
    }

    /**
     * The state `get_next_state` starts from: the index, range-checked when
     * given, overridden by the label's value when a label is given too.
     * Index 0 is in range.
     */
    function CurrentState(index: Option<int>, state: Option<StateLabel>): (r: Result<nat, MarkovError>)
      requires Valid()
      requires state.Some? ==> states.Some?
      ensures index.None? && state.None? ==> r == Failure(NoCurrentState)
      ensures index.Some? && !(0 <= index.value < nStates) ==> r == Failure(StateIndexOutOfRange(index.value))
      ensures (index.None? || 0 <= index.value < nStates) && state.Some? && state.value !in states.value ==>
                r == Failure(StateNotDescribed(state.value))
      ensures r.Success? ==> r.value < nStates
      ensures r.Success? && state.Some? ==> state.value in states.value && r.value == state.value.value
      ensures r.Success? && state.None? ==> index.Some? && r.value == index.value
      ensures r.Failure? <==>
                (index.None? && state.None?)
                || (index.Some? && !(0 <= index.value < nStates))
                || (state.Some? && state.value !in states.value)
    {
      if index.None? && state.None? then Failure(NoCurrentState)
      else if index.Some? && !(0 <= index.value < nStates) then Failure(StateIndexOutOfRange(index.value))
      else if state.Some? then
        if state.value in states.value then
          var k :| 0 <= k < |states.value| && states.value[k] == state.value;
          Success(k)
        else Failure(StateNotDescribed(state.value))
      else Success(index.value)
    }

    /** State k in the form the process was built with: its label when it has labels, else k. */
    ghost predicate Reports(s: NextState, k: nat)
    {
      if states.Some? then k < |states.value| && s == Label(states.value[k]) else s == Index(k)
    }

    /**
     * `get_next_state`: one draw from the current row's empirical distribution,
     * reported as an index, or as a label when the process has labels.
     */
    function GetNextState(index: Option<int>, state: Option<StateLabel>, sampler: Sampler, rng: RandomSource)
      : (r: Result<(NextState, RandomSource), MarkovError>)
      requires Valid()
      requires state.Some? ==> states.Some?
      ensures CurrentState(index, state).Failure? ==> r == Failure(CurrentState(index, state).error)
      ensures r.Success? ==>
                CurrentState(index, state).Success?
                && Reports(r.value.0, sampler.empirical(empiricalDists[CurrentState(index, state).value], rng))
                && r.value.1 == rng.Next()
      ensures CurrentState(index, state).Success? && r.Failure? ==>
                states.Some? && r.error == DrawnStateNotDescribed(sampler.empirical(empiricalDists[CurrentState(index, state).value], rng))
      ensures r.Success? <==>
                CurrentState(index, state).Success?
                && (states.None? || sampler.empirical(empiricalDists[CurrentState(index, state).value], rng) < |states.value|)
      ensures Sound(sampler) && CurrentState(index, state).Success? ==>
                var row := empiricalDists[CurrentState(index, state).value];
                sampler.empirical(row, rng) < |row| && row[sampler.empirical(row, rng)] > 0.0
    {
      var current := CurrentState(index, state);
      if current.Failure? then Failure(current.error)
      else
        var row := empiricalDists[current.value];
        PositiveSumHasPositiveEntry(row);
        var next := sampler.empirical(row, rng);
        if states.Some? then
          if next < |states.value| then Success((Label(states.value[next]), rng.Next()))
          else Failure(DrawnStateNotDescribed(next))
        else Success((Index(next), rng.Next()))
    }
  }

  /**
   * With a sound sampler and labels numbering as many states as each row has
   * entries, a query from a known state always yields the label of a state
   * the row reaches with positive probability.
   */
  lemma LabelledDrawSucceeds(p: MarkovJumpProcess, index: Option<int>, state: Option<StateLabel>, sampler: Sampler, rng: RandomSource)
    requires p.Valid() && p.states.Some? && Sound(sampler)
    requires forall i :: 0 <= i < |p.empiricalDists| ==> |p.empiricalDists[i]| <= p.nStates
    requires p.CurrentState(index, state).Success?
    ensures p.GetNextState(index, state, sampler, rng).Success?
    ensures var k := sampler.empirical(p.empiricalDists[p.CurrentState(index, state).value], rng);
            k < p.nStates && p.empiricalDists[p.CurrentState(index, state).value][k] > 0.0
            && p.GetNextState(index, state, sampler, rng).value.0 == Label(p.states.value[k])
  {
  }

  // ---------------------------------------------------------------------
  // Gillespie

  /** The scale (mean 1 / out rate) of state i's holding time, or None for an absorbing state. */
  function HoldingScale(m: RateMatrix, i: nat): Option<real>
    requires i < |m|
  {
    if RateOut(m, i) > 0.0 then Some(1.0 / RateOut(m, i)) else None
  }

  /** The destination weights of state i (its jump shares), or None for an absorbing state. */
  function Destinations(m: RateMatrix, i: nat): Option<seq<real>>
    requires i < |m|
  {
    if RateOut(m, i) > 0.0 then Some(Shares(m, i)) else None
  }

  /** Row i holds a negative rate at position j. */
  ghost predicate NegativeAt(m: RateMatrix, i: nat, j: nat)
  {
    i < |m| && j < |m[i]| && m[i][j].Some? && m[i][j].value < 0.0
  }

  /**
   * The rows the construction divides by their out rate have every
   * off-diagonal rate present: those with a positive out rate whose row and
   * earlier rows hold no negative rate. A None in a later row is never read,
   * since the first negative rate ends the construction.
   */
  ghost predicate ReachedRatesPresent(m: RateMatrix)
  {
    forall i, j ::
      (0 <= i < |m| && 0 <= j < |m[i]| && j != i && TotalOutRate(m[i], i) > 0.0
       && forall k :: 0 <= k <= i ==> NonNegativeRow(m[k]))
      ==> m[i][j].Some?
  }

  /** What a Gillespie step returns: the holding time (None when absorbing), the next state, and the generator afterwards. */
  datatype Jump = Jump(holding: Option<real>, next: nat, after: RandomSource)

  /** A continuous-time process over a rate matrix, with precomputed holding times and destinations per state. */
  class Gillespie {
    const rateMatrix: RateMatrix
    const expDists: seq<Option<real>>
    const empiricalDists: seq<Option<seq<real>>>

    /** The precomputed distributions are the ones the rate matrix determines. */
    ghost predicate Valid()
    {
      && |rateMatrix| > 0 && NonNegativeRates(rateMatrix) && UsedRatesPresent(rateMatrix)
      && |expDists| == |rateMatrix| && |empiricalDists| == |rateMatrix|
      && forall i :: 0 <= i < |rateMatrix| ==>
           expDists[i] == HoldingScale(rateMatrix, i) && empiricalDists[i] == Destinations(rateMatrix, i)
    }

    constructor (rateMatrix: RateMatrix, expDists: seq<Option<real>>, empiricalDists: seq<Option<seq<real>>>)
      ensures this.rateMatrix == rateMatrix && this.expDists == expDists && this.empiricalDists == empiricalDists
    {
      this.rateMatrix := rateMatrix;
      this.expDists := expDists;
      this.empiricalDists := empiricalDists;
    }

    /**
     * `Gillespie.__init__`: rejects an empty matrix, then goes through the rows
     * in order, rejecting the first negative rate (None entries are skipped)
     * and otherwise storing the holding-time scale and destination weights of
     * the row, or None for both when its out rate is 0.
     */
    static method Create(m: RateMatrix) returns (r: Result<Gillespie, MarkovError>)
      requires ReachedRatesPresent(m)
      ensures r.Success? <==> |m| > 0 && NonNegativeRates(m)
      ensures |m| == 0 ==> r == Failure(EmptyRateMatrix)
      ensures |m| > 0 && r.Failure? ==>
                exists i: nat, j: nat :: NegativeAt(m, i, j) && r.error == NegativeRate(i, m[i][j].value)
                               && (forall k :: 0 <= k < i ==> NonNegativeRow(m[k]))
                               && (forall l :: 0 <= l < j ==> !NegativeAt(m, i, l))
      ensures r.Success? ==> r.value.Valid() && r.value.rateMatrix == m
    {
      if |m| == 0 {
        return Failure(EmptyRateMatrix);
      }
      var expDists: seq<Option<real>> := [];
      var empiricalDists: seq<Option<seq<real>>> := [];
      for i := 0 to |m|
        invariant |expDists| == i && |empiricalDists| == i
        invariant forall k :: 0 <= k < i ==> NonNegativeRow(m[k])
        invariant forall k :: 0 <= k < i ==> expDists[k] == HoldingScale(m, k) && empiricalDists[k] == Destinations(m, k)
      {
        var row := m[i];
        for j := 0 to |row|
          invariant forall l :: 0 <= l < j ==> !NegativeAt(m, i, l)
        {
          if row[j].Some? && row[j].value < 0.0 {
            return Failure(NegativeRate(i, row[j].value));
          }
        }
        assert NonNegativeRow(m[i]) by {
          forall l | 0 <= l < |row| && row[l].Some?
            ensures row[l].value >= 0.0
          {
            assert !NegativeAt(m, i, l);
          }
        }
        var rateOut := OutRate(row, i);
        assert forall k :: 0 <= k <= i ==> NonNegativeRow(m[k]);
        if rateOut > 0.0 {
          expDists := expDists + [Some(1.0 / rateOut)];
          var probs := DestinationWeights(m, i, rateOut);
          empiricalDists := empiricalDists + [Some(probs)];
        } else {
          expDists := expDists + [None];
          empiricalDists := empiricalDists + [None];
        }
      }
      assert NonNegativeRates(m);
      var process := new Gillespie(m, expDists, empiricalDists);
      return Success(process);
    }

    /**
     * `get_next_state`: an absorbing state stays put without drawing;
     * otherwise the holding time is drawn first and the destination second.
     */
    function GetNextState(index: int, sampler: Sampler, rng: RandomSource): (r: Result<Jump, MarkovError>)
      requires Valid()
      ensures r.Failure? <==> !(0 <= index < |rateMatrix|)
      ensures r.Failure? ==> r.error == StateIndexOutOfRange(index)
      ensures r.Success? && RateOut(rateMatrix, index) <= 0.0 ==> r.value == Jump(None, index, rng)
      ensures r.Success? && RateOut(rateMatrix, index) > 0.0 ==>
                r.value == Jump(Some(sampler.exponential(HoldingScale(rateMatrix, index).value, rng)),
                                sampler.empirical(Shares(rateMatrix, index), rng.Next()),
                                rng.Next().Next())
      ensures Sound(sampler) && r.Success? && r.value.holding.Some? ==>
                r.value.holding.value >= 0.0
                && r.value.next < |rateMatrix[index]| && r.value.next != index
                && rateMatrix[index][r.value.next].Some? && rateMatrix[index][r.value.next].value > 0.0
    {
      if !(0 <= index < |rateMatrix|) then Failure(StateIndexOutOfRange(index))
      else
        match expDists[index]
        case None => Success(Jump(None, index, rng))
        case Some(scale) =>
          JumpTargets(rateMatrix, index, sampler, rng);
          var weights := empiricalDists[index].value;
          Success(Jump(Some(sampler.exponential(scale, rng)), sampler.empirical(weights, rng.Next()), rng.Next().Next()))
    }
  }

  /**
   * The destination weights of a row with a positive out rate: each rate
   * divided by the out rate, with the self position set to 0 first.
   */
  method DestinationWeights(m: RateMatrix, i: nat, rateOut: real) returns (probs: seq<real>)
    requires i < |m| && forall j :: 0 <= j < |m[i]| && j != i ==> m[i][j].Some?
    requires rateOut == RateOut(m, i) && rateOut > 0.0
    ensures probs == Shares(m, i)
  {
    var rates: seq<real> := [];
    for j := 0 to |m[i]|
      invariant |rates| == j
      invariant forall l :: 0 <= l < j ==> rates[l] == if l == i then 0.0 else RateValue(m[i][l])
    {
      if i == j {
        rates := rates + [0.0];
      } else {
        rates := rates + [m[i][j].value];
      }
    }
    probs := seq(|rates|, k requires 0 <= k < |rates| => rates[k] / rateOut);
    forall k | 0 <= k < |probs|
      ensures probs[k] == Shares(m, i)[k]
    {
      if k != i {
        assert rates[k] == RateValue(m[i][k]) && rateOut == RateOut(m, i);
      }
    }
  }

  /**
   * From a state with a positive out rate, a sound sampler gives a
   * non-negative holding time and a destination other than the state, reached
   * by a positive rate.
   */
  lemma JumpTargets(m: RateMatrix, i: nat, sampler: Sampler, g: RandomSource)
    requires i < |m| && NonNegativeRates(m) && UsedRatesPresent(m)
    ensures Sound(sampler) && RateOut(m, i) > 0.0 ==>
              sampler.exponential(HoldingScale(m, i).value, g) >= 0.0
              && var k := sampler.empirical(Shares(m, i), g.Next());
                 k < |m[i]| && k != i && m[i][k].Some? && m[i][k].value > 0.0
  {
    if Sound(sampler) && RateOut(m, i) > 0.0 {
      QuotientSign(1.0, RateOut(m, i));
      var w := Shares(m, i);
      RowSharesSumToOne(m, i);
      PositiveSumHasPositiveEntry(w);
      var k := sampler.empirical(w, g.Next());
      assert k < |w| && w[k] > 0.0;
      QuotientSign(RateValue(m[i][k]), RateOut(m, i));
    }
  }

  /**
   * The destination weights of a non-absorbing Gillespie state are the rates
   * over the out rate, 0 at the state itself, and sum to 1.
   */
  lemma DestinationWeightsSumToOne(m: RateMatrix, i: nat)
    requires i < |m| && RateOut(m, i) > 0.0
    ensures Destinations(m, i).Some?
    ensures Sum(Destinations(m, i).value) == 1.0
    ensures i < |m[i]| ==> Destinations(m, i).value[i] == 0.0
    ensures forall j :: 0 <= j < |m[i]| && j != i ==>
              Destinations(m, i).value[j] == RateValue(m[i][j]) / RateOut(m, i)
  {
    RowSharesSumToOne(m, i);
  }

  /** An absorbing Gillespie state stays put, with no holding time and no draw. */
  lemma AbsorbingStateStays(g: Gillespie, index: nat, sampler: Sampler, rng: RandomSource)
    requires g.Valid() && index < |g.rateMatrix| && RateOut(g.rateMatrix, index) == 0.0
    ensures g.expDists[index].None? && g.empiricalDists[index].None?
    ensures g.GetNextState(index, sampler, rng) == Success(Jump(None, index, rng))
  {
  }
}
