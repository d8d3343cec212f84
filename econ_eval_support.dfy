/**
 * The cost-effectiveness bookkeeping of deampy/support/econ_eval_support.py:
 * the incremental net-monetary-benefit formulas, the per-threshold choice of
 * the best strategy curve with its frontier appends, and the curves whose
 * values and error bars are derived from a statistic. The statistics are
 * given as values (`InmbStat`, `EffectStat`); their computation is not modelled.
 */
module EconEvalSupport {
  import opened Wrappers

  // ---------------------------------------------------------------------
  // Incremental net monetary benefit

  /** `inmb_u(d_effect, d_cost)`: the benefit at threshold w when a higher effect is better. */
  function InmbU(dEffect: real, dCost: real): (real -> real)
  {
    (w: real) => w * dEffect - dCost
  }

  /** `inmb_d(d_effect, d_cost)`: the benefit at threshold w when a higher effect is worse. */
  function InmbD(dEffect: real, dCost: real): (real -> real)
  {
    (w: real) => -w * dEffect - dCost
  }

  /** `inmb2_u`: `inmb_u` at the gain threshold when the effect is not negative, else at the loss threshold. */
  function Inmb2U(dEffect: real, dCost: real): ((real, real) -> real)
  {
    (wGain: real, wLoss: real) => if dEffect >= 0.0 then InmbU(dEffect, dCost)(wGain) else InmbU(dEffect, dCost)(wLoss)
  }

  /** `inmb2_d`: `inmb_d` at the gain threshold when the effect is not negative, else at the loss threshold. */
  function Inmb2D(dEffect: real, dCost: real): ((real, real) -> real)
  {
    (wGain: real, wLoss: real) => if dEffect >= 0.0 then InmbD(dEffect, dCost)(wGain) else InmbD(dEffect, dCost)(wLoss)
  }

  /**
   * The benefit is linear in the threshold: it is minus the cost difference at
   * w = 0 and grows by the effect difference per unit of w; `inmb_d` is
   * `inmb_u` of the negated effect.
   */
  lemma InmbLinear(dEffect: real, dCost: real, w1: real, w2: real)
    ensures InmbU(dEffect, dCost)(0.0) == -dCost
    ensures InmbU(dEffect, dCost)(w1) - InmbU(dEffect, dCost)(w2) == (w1 - w2) * dEffect
    ensures InmbD(dEffect, dCost)(w1) == InmbU(-dEffect, dCost)(w1)
  {
    assert w1 * dEffect - w2 * dEffect == (w1 - w2) * dEffect;
  }

  /**
   * With a positive effect difference, the benefit is non-negative exactly
   * from the break-even threshold dCost / dEffect on.
   */
  lemma InmbBreakEven(dEffect: real, dCost: real, w: real)
    requires dEffect > 0.0
    ensures InmbU(dEffect, dCost)(w) >= 0.0 <==> w >= dCost / dEffect
  {
    assert dCost / dEffect * dEffect == dCost;
    if w >= dCost / dEffect {
      assert w * dEffect >= dCost / dEffect * dEffect;
    } else {
      assert w * dEffect < dCost / dEffect * dEffect;
    }
  }

  /** The two-threshold forms pick by the sign of the effect, and agree with the one-threshold forms when both thresholds are equal. */
  lemma Inmb2Selects(dEffect: real, dCost: real, wGain: real, wLoss: real)
    ensures Inmb2U(dEffect, dCost)(wGain, wLoss) == InmbU(dEffect, dCost)(if dEffect >= 0.0 then wGain else wLoss)
    ensures Inmb2D(dEffect, dCost)(wGain, wLoss) == InmbD(dEffect, dCost)(if dEffect >= 0.0 then wGain else wLoss)
    ensures Inmb2U(dEffect, dCost)(wGain, wGain) == InmbU(dEffect, dCost)(wGain)
    ensures Inmb2D(dEffect, dCost)(wGain, wGain) == InmbD(dEffect, dCost)(wGain)
  {
  }

  // ---------------------------------------------------------------------
  // _Curve

  /** A curve of one strategy: its points, its frontier points and its error bars. */
  class Curve {
    const labelText: string
    const shortLabel: string
    const color: string
    const linestyle: string
    var xs: seq<real>
    var ys: seq<real>
    var frontierXs: seq<real>
    var frontierYs: seq<real>
    var lErrs: Option<seq<real>>
    var uErrs: Option<seq<real>>

    /** `_Curve.__init__`: the short label defaults to the label; empty point lists and no error bars. */
    constructor (labelText: string, color: string, linestyle: string, shortLabel: Option<string>)
      ensures this.labelText == labelText && this.color == color && this.linestyle == linestyle
      ensures shortLabel.None? ==> this.shortLabel == labelText
      ensures shortLabel.Some? ==> this.shortLabel == shortLabel.value
      ensures xs == [] && ys == [] && frontierXs == [] && frontierYs == []
      ensures lErrs.None? && uErrs.None?
    {
      this.labelText := labelText;
      this.shortLabel := if shortLabel.None? then labelText else shortLabel.value;
      this.color := color;
      this.linestyle := linestyle;
      xs, ys, frontierXs, frontierYs := [], [], [], [];
      lErrs, uErrs := None, None;
    }
  }

  // ---------------------------------------------------------------------
  // Choosing the best curve per threshold

  /** A comparison bound: a finite value, or the -inf / +inf the searches start from. */
  datatype Extended = MinusInfinity | Finite(value: real) | PlusInfinity

  /** v > bound. */
  predicate Exceeds(v: real, bound: Extended)
  {
    match bound
    case MinusInfinity => true
    case Finite(b) => v > b
    case PlusInfinity => false
  }

  /** v < bound. */
  predicate Undercuts(v: real, bound: Extended)
  {
    match bound
    case MinusInfinity => false
    case Finite(b) => v < b
    case PlusInfinity => true
  }

  /** The first index among the first n entries holding their largest value. */
  function HighestIn(column: seq<real>, n: nat): (s: nat)
    requires 0 < n <= |column|
    ensures s < n
    ensures forall t :: 0 <= t < n ==> column[t] <= column[s]
    ensures forall t :: 0 <= t < s ==> column[t] < column[s]
  {
    if n == 1 then 0
    else
      var best := HighestIn(column, n - 1);
      if column[n - 1] > column[best] then n - 1 else best
  }

  /** The first index among the first n entries holding their smallest value. */
  function LowestIn(column: seq<real>, n: nat): (s: nat)
    requires 0 < n <= |column|
    ensures s < n
    ensures forall t :: 0 <= t < n ==> column[s] <= column[t]
    ensures forall t :: 0 <= t < s ==> column[s] < column[t]
  {
    if n == 1 then 0
    else
      var best := LowestIn(column, n - 1);
      if column[n - 1] < column[best] then n - 1 else best
  }

  /** Every entry negated. */
  function Negated(column: seq<real>): (r: seq<real>)
    ensures |r| == |column|
  {
    seq(|column|, t requires 0 <= t < |column| => -column[t])
  }

  /** The search for the lowest value is the search for the highest value of the negated entries. */
  lemma {:induction false} LowestIsHighestOfNegated(column: seq<real>, n: nat)
    requires 0 < n <= |column|
    ensures LowestIn(column, n) == HighestIn(Negated(column), n)
  {
    if n > 1 {
      LowestIsHighestOfNegated(column, n - 1);
    }
  }

  /** The values of all curves at threshold k: entry k of each curve's ys. */
  function Column(table: seq<seq<real>>, k: nat): (c: seq<real>)
    requires forall s :: 0 <= s < |table| ==> k < |table[s]|
    ensures |c| == |table|
  {
    seq(|table|, s requires 0 <= s < |table| => table[s][k])
  }

  /** Every row of the table holds at least n values. */
  ghost predicate Covers(table: seq<seq<real>>, n: nat)
  {
    forall s :: 0 <= s < |table| ==> n <= |table[s]|
  }

  /** The curve objects of a list. */
  ghost function Objects(curves: seq<Curve>): set<Curve>
  {
    set s | 0 <= s < |curves| :: curves[s]
  }

  /** The ys of the curves, as a table of values. */
  ghost function Table(curves: seq<Curve>): (t: seq<seq<real>>)
    reads Objects(curves)`ys
    ensures |t| == |curves| && forall s :: 0 <= s < |curves| ==> t[s] == curves[s].ys
  {
    TableUpto(curves, |curves|)
  }

  /** The first n entries of Table. */
  ghost function TableUpto(curves: seq<Curve>, n: nat): (t: seq<seq<real>>)
    requires n <= |curves|
    reads Objects(curves)`ys
    ensures |t| == n && forall s :: 0 <= s < n ==> t[s] == curves[s].ys
  {
    if n == 0 then [] else TableUpto(curves, n - 1) + [curves[n - 1].ys]
  }

  /** For each of the first n thresholds, the first curve with the highest value there. */
  function HighestWinners(table: seq<seq<real>>, n: nat): (w: seq<nat>)
    requires |table| > 0 && Covers(table, n)
    ensures |w| == n && forall k :: 0 <= k < n ==> w[k] < |table|
  {
    if n == 0 then [] else HighestWinners(table, n - 1) + [HighestIn(Column(table, n - 1), |table|)]
  }

  /** For each of the first n thresholds, the first curve with the lowest value there. */
  function LowestWinners(table: seq<seq<real>>, n: nat): (w: seq<nat>)
    requires |table| > 0 && Covers(table, n)
    ensures |w| == n && forall k :: 0 <= k < n ==> w[k] < |table|
  {
    if n == 0 then [] else LowestWinners(table, n - 1) + [LowestIn(Column(table, n - 1), |table|)]
  }

  /** The value each winner has at its threshold. */
  function WinningValues(table: seq<seq<real>>, winners: seq<nat>): (v: seq<real>)
    requires Covers(table, |winners|)
    requires forall k :: 0 <= k < |winners| ==> winners[k] < |table|
    ensures |v| == |winners|
  {
    seq(|winners|, k requires 0 <= k < |winners| => table[winners[k]][k])
  }

  /**
   * The highest winner at threshold k is a curve no other curve beats there,
   * and every curve before it is strictly below; its frontier value is the
   * largest value at k.
   */
  lemma HighestWinnerIsBest(table: seq<seq<real>>, n: nat, k: nat)
    requires |table| > 0 && Covers(table, n) && k < n
    ensures var w := HighestWinners(table, n)[k];
            && w < |table|
            && (forall s :: 0 <= s < |table| ==> table[s][k] <= table[w][k])
            && (forall s :: 0 <= s < w ==> table[s][k] < table[w][k])
  {
    var c := Column(table, k);
    var w := HighestIn(c, |table|);
    forall s | 0 <= s < |table|
      ensures table[s][k] <= table[w][k]
    {
      assert c[s] <= c[w];
    }
    forall s | 0 <= s < w
      ensures table[s][k] < table[w][k]
    {
      assert c[s] < c[w];
    }
  }

  /** The mirror of HighestWinnerIsBest for the lowest values. */
  lemma LowestWinnerIsBest(table: seq<seq<real>>, n: nat, k: nat)
    requires |table| > 0 && Covers(table, n) && k < n
    ensures var w := LowestWinners(table, n)[k];
            && w < |table|
            && (forall s :: 0 <= s < |table| ==> table[w][k] <= table[s][k])
            && (forall s :: 0 <= s < w ==> table[w][k] < table[s][k])
  {
    var c := Column(table, k);
    var w := LowestIn(c, |table|);
    forall s | 0 <= s < |table|
      ensures table[w][k] <= table[s][k]
    {
      assert c[w] <= c[s];
    }
    forall s | 0 <= s < w
      ensures table[w][k] < table[s][k]
    {
      assert c[w] < c[s];
    }
  }

  /**
   * What the appends of one search add to curve c's frontier list, in
   * threshold order: values[k] for every k whose winner is c.
   */
  function Appended(curves: seq<Curve>, winners: seq<nat>, values: seq<real>, c: Curve): (a: seq<real>)
    requires |values| == |winners|
    requires forall k :: 0 <= k < |winners| ==> winners[k] < |curves|
    ensures |a| <= |winners|
  {
    if |winners| == 0 then []
    else
      var last := |winners| - 1;
      Appended(curves, winners[..last], values[..last], c)
        + (if curves[winners[last]] == c then [values[last]] else [])
  }

  /** What the appends add to the frontier of the curve at position s, in threshold order. */
  function WonBy(winners: seq<nat>, values: seq<real>, s: nat): (a: seq<real>)
    requires |values| == |winners|
    ensures |a| <= |winners|
  {
    if |winners| == 0 then []
    else
      var last := |winners| - 1;
      WonBy(winners[..last], values[..last], s) + (if winners[last] == s then [values[last]] else [])
  }

  /** The number of appends to the first n positions. */
  function TotalWon(winners: seq<nat>, values: seq<real>, n: nat): nat
    requires |values| == |winners|
  {
    if n == 0 then 0 else TotalWon(winners, values, n - 1) + |WonBy(winners, values, n - 1)|
  }

  /** When no two positions hold the same curve, a curve's appends are those won by its position. */
  lemma {:induction false} AppendedByPosition(curves: seq<Curve>, winners: seq<nat>, values: seq<real>, s: nat)
    requires |values| == |winners| && s < |curves|
    requires forall k :: 0 <= k < |winners| ==> winners[k] < |curves|
    requires forall a, b :: 0 <= a < b < |curves| ==> curves[a] != curves[b]
    ensures Appended(curves, winners, values, curves[s]) == WonBy(winners, values, s)
  {
    if |winners| > 0 {
      var last := |winners| - 1;
      AppendedByPosition(curves, winners[..last], values[..last], s);
    }
  }

  /** A position gets no appends exactly when it wins at no threshold. */
  lemma {:induction false} NeverWinningGetsNothing(winners: seq<nat>, values: seq<real>, s: nat)
    requires |values| == |winners|
    ensures WonBy(winners, values, s) == [] <==> forall k :: 0 <= k < |winners| ==> winners[k] != s
  {
    if |winners| > 0 {
      var last := |winners| - 1;
      var prefix := winners[..last];
      NeverWinningGetsNothing(prefix, values[..last], s);
      assert forall k :: 0 <= k < last ==> prefix[k] == winners[k];
    }
  }

  /** One more append adds one to the count of every range of positions holding its winner. */
  lemma {:induction false} TotalWonStep(winners: seq<nat>, values: seq<real>, w: nat, v: real, n: nat)
    requires |values| == |winners|
    ensures TotalWon(winners + [w], values + [v], n) == TotalWon(winners, values, n) + (if w < n then 1 else 0)
  {
    if n > 0 {
      TotalWonStep(winners, values, w, v, n - 1);
      WonByStep(winners, values, w, v, n - 1);
    }
  }

  /** One more append extends what its winner's position won by its value, and no other position's. */
  lemma WonByStep(winners: seq<nat>, values: seq<real>, w: nat, v: real, s: nat)
    requires |values| == |winners|
    ensures WonBy(winners + [w], values + [v], s) == WonBy(winners, values, s) + (if w == s then [v] else [])
  {
    var ws, vs := winners + [w], values + [v];
    assert ws[..|winners|] == winners && vs[..|winners|] == values;
  }

  /** When every winner is one of n positions, exactly one append happens per threshold. */
  lemma {:induction false} AppendsPerThreshold(winners: seq<nat>, values: seq<real>, n: nat)
    requires |values| == |winners|
    requires forall k :: 0 <= k < |winners| ==> winners[k] < n
    ensures TotalWon(winners, values, n) == |winners|
  {
    if |winners| == 0 {
      ZeroWonBelow(winners, values, n);
    } else {
      var last := |winners| - 1;
      AppendsPerThreshold(winners[..last], values[..last], n);
      TotalWonStep(winners[..last], values[..last], winners[last], values[last], n);
      assert winners[..last] + [winners[last]] == winners;
      assert values[..last] + [values[last]] == values;
    }
  }

  /** Without appends, no position has any. */
  lemma {:induction false} ZeroWonBelow(winners: seq<nat>, values: seq<real>, n: nat)
    requires |values| == |winners| == 0
    ensures TotalWon(winners, values, n) == 0
  {
    if n > 0 {
      ZeroWonBelow(winners, values, n - 1);
    }
  }

  /** Appending one winner extends the appends of every curve by at most that winner's value. */
  lemma AppendedStep(curves: seq<Curve>, winners: seq<nat>, values: seq<real>, w: nat, v: real, c: Curve)
    requires |values| == |winners| && w < |curves|
    requires forall k :: 0 <= k < |winners| ==> winners[k] < |curves|
    ensures Appended(curves, winners + [w], values + [v], c)
         == Appended(curves, winners, values, c) + (if curves[w] == c then [v] else [])
  {
    var ws, vs := winners + [w], values + [v];
    assert ws[..|winners|] == winners && vs[..|winners|] == values;
  }

  /** The points and error bars of a curve, which the frontier searches leave alone. */
  datatype CurveData = CurveData(xs: seq<real>, ys: seq<real>, lErrs: Option<seq<real>>, uErrs: Option<seq<real>>)

  /** Each curve holds the given points and error bars. */
  ghost predicate HoldsData(curves: seq<Curve>, data: seq<CurveData>)
    reads Objects(curves)`xs, Objects(curves)`ys, Objects(curves)`lErrs, Objects(curves)`uErrs
  {
    |data| == |curves|
    && forall s :: 0 <= s < |curves| ==>
         data[s] == CurveData(curves[s].xs, curves[s].ys, curves[s].lErrs, curves[s].uErrs)
  }

  /** The points and error bars the curves hold now. */
  ghost function Snapshot(curves: seq<Curve>): (d: seq<CurveData>)
    reads Objects(curves)`xs, Objects(curves)`ys, Objects(curves)`lErrs, Objects(curves)`uErrs
    ensures HoldsData(curves, d)
  {
    SnapshotUpto(curves, |curves|)
  }

  /** The first n entries of Snapshot. */
  ghost function SnapshotUpto(curves: seq<Curve>, n: nat): (d: seq<CurveData>)
    requires n <= |curves|
    reads Objects(curves)`xs, Objects(curves)`ys, Objects(curves)`lErrs, Objects(curves)`uErrs
    ensures |d| == n
    ensures forall s :: 0 <= s < n ==> d[s] == CurveData(curves[s].xs, curves[s].ys, curves[s].lErrs, curves[s].uErrs)
  {
    if n == 0 then []
    else SnapshotUpto(curves, n - 1) + [CurveData(curves[n - 1].xs, curves[n - 1].ys, curves[n - 1].lErrs, curves[n - 1].uErrs)]
  }

  /** The frontier xs of the curves, as a table of values. */
  ghost function FrontierXsTable(curves: seq<Curve>): (t: seq<seq<real>>)
    reads Objects(curves)`frontierXs
    ensures |t| == |curves| && forall s :: 0 <= s < |curves| ==> t[s] == curves[s].frontierXs
  {
    FrontierXsTableUpto(curves, |curves|)
  }

  /** The first n entries of FrontierXsTable. */
  ghost function FrontierXsTableUpto(curves: seq<Curve>, n: nat): (t: seq<seq<real>>)
    requires n <= |curves|
    reads Objects(curves)`frontierXs
    ensures |t| == n && forall s :: 0 <= s < n ==> t[s] == curves[s].frontierXs
  {
    if n == 0 then [] else FrontierXsTableUpto(curves, n - 1) + [curves[n - 1].frontierXs]
  }

  /** The frontier ys of the curves, as a table of values. */
  ghost function FrontierYsTable(curves: seq<Curve>): (t: seq<seq<real>>)
    reads Objects(curves)`frontierYs
    ensures |t| == |curves| && forall s :: 0 <= s < |curves| ==> t[s] == curves[s].frontierYs
  {
    FrontierYsTableUpto(curves, |curves|)
  }

  /** The first n entries of FrontierYsTable. */
  ghost function FrontierYsTableUpto(curves: seq<Curve>, n: nat): (t: seq<seq<real>>)
    requires n <= |curves|
    reads Objects(curves)`frontierYs
    ensures |t| == n && forall s :: 0 <= s < n ==> t[s] == curves[s].frontierYs
  {
    if n == 0 then [] else FrontierYsTableUpto(curves, n - 1) + [curves[n - 1].frontierYs]
  }

  /**
   * Every curve's frontier is its starting frontier followed by what the
   * winners so far appended to it.
   */
  ghost predicate FrontiersAre(curves: seq<Curve>, startXs: seq<seq<real>>, startYs: seq<seq<real>>,
                               winners: seq<nat>, xs: seq<real>, ys: seq<real>)
    reads Objects(curves)`frontierXs, Objects(curves)`frontierYs
  {
    && |startXs| == |curves| && |startYs| == |curves|
    && |xs| == |winners| && |ys| == |winners|
    && (forall k :: 0 <= k < |winners| ==> winners[k] < |curves|)
    && forall s :: 0 <= s < |curves| ==>
         && curves[s].frontierXs == startXs[s] + Appended(curves, winners, xs, curves[s])
         && curves[s].frontierYs == startYs[s] + Appended(curves, winners, ys, curves[s])
  }

  /** The appends of one threshold: the winner's frontier gets the threshold x and the value y. */
  method AppendToFrontier(curves: seq<Curve>, w: nat, x: real, y: real,
                          ghost startXs: seq<seq<real>>, ghost startYs: seq<seq<real>>,
                          ghost winners: seq<nat>, ghost xs: seq<real>, ghost ys: seq<real>)
    requires w < |curves|
    requires FrontiersAre(curves, startXs, startYs, winners, xs, ys)
    modifies {curves[w]}`frontierXs, {curves[w]}`frontierYs
    ensures FrontiersAre(curves, startXs, startYs, winners + [w], xs + [x], ys + [y])
  {
    curves[w].frontierXs := curves[w].frontierXs + [x];
    curves[w].frontierYs := curves[w].frontierYs + [y];
    forall s | 0 <= s < |curves|
      ensures curves[s].frontierXs == startXs[s] + Appended(curves, winners + [w], xs + [x], curves[s])
    {
      AppendedStep(curves, winners, xs, w, x, curves[s]);
    }
    forall s | 0 <= s < |curves|
      ensures curves[s].frontierYs == startYs[s] + Appended(curves, winners + [w], ys + [y], curves[s])
    {
      AppendedStep(curves, winners, ys, w, y, curves[s]);
    }
  }

  /**
   * The inner search of `update_curves_with_highest_values` at threshold k:
   * from -inf, a strictly greater value replaces the best so far.
   */
  method HighestCurve(curves: seq<Curve>, k: nat, ghost table: seq<seq<real>>) returns (maxIdx: nat, maxValue: real)
    requires |curves| > 0 && |table| == |curves| && Covers(table, k + 1)
    requires forall s :: 0 <= s < |curves| ==> curves[s].ys == table[s]
    ensures maxIdx == HighestIn(Column(table, k), |table|)
    ensures maxValue == table[maxIdx][k]
  {
    ghost var column := Column(table, k);
    var best := MinusInfinity;
    maxIdx := 0;
    for s := 0 to |curves|
      invariant s == 0 ==> best == MinusInfinity && maxIdx == 0
      invariant s > 0 ==> maxIdx == HighestIn(column, s) && best == Finite(column[maxIdx])
    {
      if Exceeds(curves[s].ys[k], best) {
        best := Finite(curves[s].ys[k]);
        maxIdx := s;
      }
    }
    maxValue := best.value;
  }

  /**
   * The inner search of `update_curves_with_lowest_values` at threshold k:
   * from +inf, a strictly smaller value replaces the best so far.
   */
  method LowestCurve(curves: seq<Curve>, k: nat, ghost table: seq<seq<real>>) returns (minIdx: nat, minValue: real)
    requires |curves| > 0 && |table| == |curves| && Covers(table, k + 1)
    requires forall s :: 0 <= s < |curves| ==> curves[s].ys == table[s]
    ensures minIdx == LowestIn(Column(table, k), |table|)
    ensures minValue == table[minIdx][k]
  {
    ghost var column := Column(table, k);
    var best := PlusInfinity;
    minIdx := 0;
    for s := 0 to |curves|
      invariant s == 0 ==> best == PlusInfinity && minIdx == 0
      invariant s > 0 ==> minIdx == LowestIn(column, s) && best == Finite(column[minIdx])
    {
      if Undercuts(curves[s].ys[k], best) {
        best := Finite(curves[s].ys[k]);
        minIdx := s;
      }
    }
    minValue := best.value;
  }

  /** A prefix one longer is the prefix followed by the next element. */
  lemma PrefixStep<T>(s: seq<T>, k: nat)
    requires k < |s|
    ensures s[..k + 1] == s[..k] + [s[k]]
  {
  }

  /** The winners of one more threshold are the winners so far and the next winner. */
  lemma HighestWinnersStep(table: seq<seq<real>>, k: nat)
    requires |table| > 0 && Covers(table, k + 1)
    ensures HighestWinners(table, k + 1) == HighestWinners(table, k) + [HighestIn(Column(table, k), |table|)]
  {
  }

  /** The mirror of HighestWinnersStep for the lowest values. */
  lemma LowestWinnersStep(table: seq<seq<real>>, k: nat)
    requires |table| > 0 && Covers(table, k + 1)
    ensures LowestWinners(table, k + 1) == LowestWinners(table, k) + [LowestIn(Column(table, k), |table|)]
  {
  }

  /** The winning values of one more winner are those so far and the new winner's value. */
  lemma WinningValuesStep(table: seq<seq<real>>, winners: seq<nat>, w: nat)
    requires Covers(table, |winners| + 1) && w < |table|
    requires forall k :: 0 <= k < |winners| ==> winners[k] < |table|
    ensures WinningValues(table, winners + [w]) == WinningValues(table, winners) + [table[w][|winners|]]
  {
  }

  /** The appends of threshold k, and the thresholds seen so far growing by one. */
  method AdvanceFrontier(curves: seq<Curve>, wtpValues: seq<real>, k: nat, w: nat, v: real,
                         ghost startXs: seq<seq<real>>, ghost startYs: seq<seq<real>>, ghost data: seq<CurveData>,
                         ghost winners: seq<nat>, ghost won: seq<real>)
    requires k < |wtpValues| && w < |curves|
    requires HoldsData(curves, data)
    requires FrontiersAre(curves, startXs, startYs, winners, wtpValues[..k], won)
    modifies {curves[w]}`frontierXs, {curves[w]}`frontierYs
    ensures HoldsData(curves, data)
    ensures FrontiersAre(curves, startXs, startYs, winners + [w], wtpValues[..k + 1], won + [v])
  {
    AppendToFrontier(curves, w, wtpValues[k], v, startXs, startYs, winners, wtpValues[..k], won);
    PrefixStep(wtpValues, k);
  }

  /** One threshold of `update_curves_with_highest_values`: search, then append. */
  method HighestStep(curves: seq<Curve>, wtpValues: seq<real>, k: nat, ghost table: seq<seq<real>>,
                     ghost startXs: seq<seq<real>>, ghost startYs: seq<seq<real>>, ghost data: seq<CurveData>,
                     ghost winners: seq<nat>, ghost won: seq<real>)
    returns (maxIdx: nat, maxValue: real)
    requires k < |wtpValues| && |curves| > 0 && |table| == |curves| && Covers(table, |wtpValues|)
    requires HoldsData(curves, data) && forall s :: 0 <= s < |curves| ==> data[s].ys == table[s]
    requires winners == HighestWinners(table, k) && won == WinningValues(table, winners)
    requires FrontiersAre(curves, startXs, startYs, winners, wtpValues[..k], won)
    modifies Objects(curves)`frontierXs, Objects(curves)`frontierYs
    ensures HoldsData(curves, data)
    ensures winners + [maxIdx] == HighestWinners(table, k + 1)
    ensures won + [maxValue] == WinningValues(table, winners + [maxIdx])
    ensures FrontiersAre(curves, startXs, startYs, winners + [maxIdx], wtpValues[..k + 1], won + [maxValue])
  {
    maxIdx, maxValue := HighestCurve(curves, k, table);
    HighestWinnersStep(table, k);
    WinningValuesStep(table, winners, maxIdx);
    AdvanceFrontier(curves, wtpValues, k, maxIdx, maxValue, startXs, startYs, data, winners, won);
  }

  /** One threshold of `update_curves_with_lowest_values`: search, then append. */
  method LowestStep(curves: seq<Curve>, wtpValues: seq<real>, k: nat, ghost table: seq<seq<real>>,
                    ghost startXs: seq<seq<real>>, ghost startYs: seq<seq<real>>, ghost data: seq<CurveData>,
                    ghost winners: seq<nat>, ghost won: seq<real>)
    returns (minIdx: nat, minValue: real)
    requires k < |wtpValues| && |curves| > 0 && |table| == |curves| && Covers(table, |wtpValues|)
    requires HoldsData(curves, data) && forall s :: 0 <= s < |curves| ==> data[s].ys == table[s]
    requires winners == LowestWinners(table, k) && won == WinningValues(table, winners)
    requires FrontiersAre(curves, startXs, startYs, winners, wtpValues[..k], won)
    modifies Objects(curves)`frontierXs, Objects(curves)`frontierYs
    ensures HoldsData(curves, data)
    ensures winners + [minIdx] == LowestWinners(table, k + 1)
    ensures won + [minValue] == WinningValues(table, winners + [minIdx])
    ensures FrontiersAre(curves, startXs, startYs, winners + [minIdx], wtpValues[..k + 1], won + [minValue])
  {
    minIdx, minValue := LowestCurve(curves, k, table);
    LowestWinnersStep(table, k);
    WinningValuesStep(table, winners, minIdx);
    AdvanceFrontier(curves, wtpValues, k, minIdx, minValue, startXs, startYs, data, winners, won);
  }

  /** The state of `update_curves_with_highest_values` after its first k thresholds. */
  ghost predicate HighestSoFar(curves: seq<Curve>, wtpValues: seq<real>, table: seq<seq<real>>, data: seq<CurveData>,
                    startXs: seq<seq<real>>, startYs: seq<seq<real>>, k: nat, winners: seq<nat>, won: seq<real>)
    reads Objects(curves)`xs, Objects(curves)`ys, Objects(curves)`lErrs, Objects(curves)`uErrs, Objects(curves)`frontierXs, Objects(curves)`frontierYs
  {
    && k <= |wtpValues| && |table| == |curves| && Covers(table, |wtpValues|) && |winners| == k && |won| == k
    && (|curves| > 0 ==> winners == HighestWinners(table, k) && won == WinningValues(table, winners))
    && HoldsData(curves, data)
    && FrontiersAre(curves, startXs, startYs, winners, wtpValues[..k], won)
  }

  /** The loop of `update_curves_with_highest_values`, over the ys table and frontiers it starts from. */
  method HighestLoop(wtpValues: seq<real>, curves: seq<Curve>, ghost table: seq<seq<real>>, ghost data: seq<CurveData>,
                     ghost startXs: seq<seq<real>>, ghost startYs: seq<seq<real>>) returns (winners: seq<nat>, ghost won: seq<real>)
    requires |wtpValues| > 0 ==> |curves| > 0
    requires |table| == |curves| && Covers(table, |wtpValues|)
    requires HoldsData(curves, data) && forall s :: 0 <= s < |curves| ==> data[s].ys == table[s]
    requires FrontiersAre(curves, startXs, startYs, [], [], [])
    modifies Objects(curves)`frontierXs, Objects(curves)`frontierYs
    ensures |winners| == |wtpValues| == |won|
    ensures |curves| > 0 ==> winners == HighestWinners(table, |wtpValues|) && won == WinningValues(table, winners)
    ensures HoldsData(curves, data)
    ensures FrontiersAre(curves, startXs, startYs, winners, wtpValues, won)
  {
    winners, won := [], [];
    for k := 0 to |wtpValues|
      invariant HighestSoFar(curves, wtpValues, table, data, startXs, startYs, k, winners, won)
    {
      var maxIdx, maxValue := HighestStep(curves, wtpValues, k, table, startXs, startYs, data, winners, won);
      winners := winners + [maxIdx];
      won := won + [maxValue];
    }
    assert wtpValues[..|wtpValues|] == wtpValues;
  }

  /**
   * `update_curves_with_highest_values`: for each threshold, the first curve
   * with the highest value there wins; its frontier gets the threshold and
   * the value. The winners' indices are returned.
   */
  method UpdateCurvesWithHighestValues(wtpValues: seq<real>, curves: seq<Curve>) returns (winners: seq<nat>)
    requires |wtpValues| > 0 ==> |curves| > 0
    requires forall s :: 0 <= s < |curves| ==> |wtpValues| <= |curves[s].ys|
    modifies Objects(curves)`frontierXs, Objects(curves)`frontierYs
    ensures |winners| == |wtpValues|
    ensures |curves| > 0 ==> winners == HighestWinners(old(Table(curves)), |wtpValues|)
    ensures HoldsData(curves, old(Snapshot(curves)))
    ensures FrontiersAre(curves, old(FrontierXsTable(curves)), old(FrontierYsTable(curves)),
                         winners, wtpValues, WinningValues(old(Table(curves)), winners))
  {
    ghost var table := Table(curves);
    ghost var data := Snapshot(curves);
    ghost var startXs, startYs := FrontierXsTable(curves), FrontierYsTable(curves);
    ghost var won;
    winners, won := HighestLoop(wtpValues, curves, table, data, startXs, startYs);
  }

  /** The state of `update_curves_with_lowest_values` after its first k thresholds. */
  ghost predicate LowestSoFar(curves: seq<Curve>, wtpValues: seq<real>, table: seq<seq<real>>, data: seq<CurveData>,
                   startXs: seq<seq<real>>, startYs: seq<seq<real>>, k: nat, winners: seq<nat>, won: seq<real>)
    reads Objects(curves)`xs, Objects(curves)`ys, Objects(curves)`lErrs, Objects(curves)`uErrs, Objects(curves)`frontierXs, Objects(curves)`frontierYs
  {
    && k <= |wtpValues| && |table| == |curves| && Covers(table, |wtpValues|) && |winners| == k && |won| == k
    && (|curves| > 0 ==> winners == LowestWinners(table, k) && won == WinningValues(table, winners))
    && HoldsData(curves, data)
    && FrontiersAre(curves, startXs, startYs, winners, wtpValues[..k], won)
  }

  /** The loop of `update_curves_with_lowest_values`, over the ys table and frontiers it starts from. */
  method LowestLoop(wtpValues: seq<real>, curves: seq<Curve>, ghost table: seq<seq<real>>, ghost data: seq<CurveData>,
                    ghost startXs: seq<seq<real>>, ghost startYs: seq<seq<real>>) returns (winners: seq<nat>, ghost won: seq<real>)
    requires |wtpValues| > 0 ==> |curves| > 0
    requires |table| == |curves| && Covers(table, |wtpValues|)
    requires HoldsData(curves, data) && forall s :: 0 <= s < |curves| ==> data[s].ys == table[s]
    requires FrontiersAre(curves, startXs, startYs, [], [], [])
    modifies Objects(curves)`frontierXs, Objects(curves)`frontierYs
    ensures |winners| == |wtpValues| == |won|
    ensures |curves| > 0 ==> winners == LowestWinners(table, |wtpValues|) && won == WinningValues(table, winners)
    ensures HoldsData(curves, data)
    ensures FrontiersAre(curves, startXs, startYs, winners, wtpValues, won)
  {
    winners, won := [], [];
    for k := 0 to |wtpValues|
      invariant LowestSoFar(curves, wtpValues, table, data, startXs, startYs, k, winners, won)
    {
      var minIdx, minValue := LowestStep(curves, wtpValues, k, table, startXs, startYs, data, winners, won);
      winners := winners + [minIdx];
      won := won + [minValue];
    }
    assert wtpValues[..|wtpValues|] == wtpValues;
  }

  /**
   * `update_curves_with_lowest_values`: the mirror of the highest search,
   * with the first curve holding the lowest value winning.
   */
  method UpdateCurvesWithLowestValues(wtpValues: seq<real>, curves: seq<Curve>) returns (winners: seq<nat>)
    requires |wtpValues| > 0 ==> |curves| > 0
    requires forall s :: 0 <= s < |curves| ==> |wtpValues| <= |curves[s].ys|
    modifies Objects(curves)`frontierXs, Objects(curves)`frontierYs
    ensures |winners| == |wtpValues|
    ensures |curves| > 0 ==> winners == LowestWinners(old(Table(curves)), |wtpValues|)
    ensures HoldsData(curves, old(Snapshot(curves)))
    ensures FrontiersAre(curves, old(FrontierXsTable(curves)), old(FrontierYsTable(curves)),
                         winners, wtpValues, WinningValues(old(Table(curves)), winners))
  {
    ghost var table := Table(curves);
    ghost var data := Snapshot(curves);
    ghost var startXs, startYs := FrontierXsTable(curves), FrontierYsTable(curves);
    ghost var won;
    winners, won := LowestLoop(wtpValues, curves, table, data, startXs, startYs);
  }

  // ---------------------------------------------------------------------
  // Interval types and error bars

  /** The interval a curve shows: a t-based confidence interval ('c'), a percentile interval ('p') or none ('n'). */
  datatype IntervalKind = Confidence | Percentile | NoInterval

  datatype CurveError = InvalidIntervalType(intervalType: string)

  /** The code of each interval kind. */
  function IntervalCode(kind: IntervalKind): string
  {
    match kind
    case Confidence => "c"
    case Percentile => "p"
    case NoInterval => "n"
  }

  /** The interval-type check: 'c', 'p' and 'n' are accepted, any other value is an error. */
  function ParseIntervalType(intervalType: string): (r: Result<IntervalKind, CurveError>)
    ensures r.Success? <==> intervalType in {"c", "p", "n"}
    ensures r.Failure? ==> r.error == InvalidIntervalType(intervalType)
    ensures r.Success? ==> IntervalCode(r.value) == intervalType
  {
    if intervalType == "c" then Success(Confidence)
    else if intervalType == "p" then Success(Percentile)
    else if intervalType == "n" then Success(NoInterval)
    else Failure(InvalidIntervalType(intervalType))
  }

  /** Each kind's code is read back as that kind. */
  lemma IntervalCodeRoundTrip(kind: IntervalKind)
    ensures ParseIntervalType(IntervalCode(kind)) == Success(kind)
  {
  }

  /** An interval of a statistic: its lower and upper ends. */
  datatype Interval = Interval(lower: real, upper: real)

  /**
   * The length of each upper error bar: from the value up to the interval's
   * upper end, so value plus error is the upper end.
   */
  function UpperErrors(ys: seq<real>, intervals: seq<Interval>): (e: seq<real>)
    requires |intervals| == |ys|
    ensures |e| == |ys|
    ensures forall k :: 0 <= k < |ys| ==> ys[k] + e[k] == intervals[k].upper
  {
    seq(|ys|, k requires 0 <= k < |ys| => intervals[k].upper - ys[k])
  }

  /**
   * The length of each lower error bar: from the interval's lower end up to
   * the value, so value minus error is the lower end.
   */
  function LowerErrors(ys: seq<real>, intervals: seq<Interval>): (e: seq<real>)
    requires |intervals| == |ys|
    ensures |e| == |ys|
    ensures forall k :: 0 <= k < |ys| ==> ys[k] - e[k] == intervals[k].lower
  {
    seq(|ys|, k requires 0 <= k < |ys| => ys[k] - intervals[k].lower)
  }

  /** Error bars are non-negative exactly where the interval contains the value. */
  lemma ErrorsNonNegative(ys: seq<real>, intervals: seq<Interval>, k: nat)
    requires |intervals| == |ys| && k < |ys|
    ensures UpperErrors(ys, intervals)[k] >= 0.0 && LowerErrors(ys, intervals)[k] >= 0.0
            <==> intervals[k].lower <= ys[k] <= intervals[k].upper
  {
  }

  // ---------------------------------------------------------------------
  // INMBCurve

  /**
   * The incremental net-monetary-benefit statistic a curve is drawn from: the
   * expected benefit at a threshold, and its confidence and percentile
   * intervals at that threshold (alpha = 0.05).
   */
  datatype InmbStat = InmbStat(incrementalNmb: real -> real, ci: real -> Interval, pi: real -> Interval)

  /** The interval of a kind other than 'n' at threshold x: the confidence interval for 'c', the percentile interval for 'p'. */
  function IntervalAt(stat: InmbStat, kind: IntervalKind, x: real): Interval
    requires kind != NoInterval
  {
    if kind == Confidence then stat.ci(x) else stat.pi(x)
  }

  /** The incremental net-monetary-benefit curve of one strategy over a list of thresholds. */
  class INMBCurve {
    const curve: Curve
    const inmbStat: InmbStat
    const intervalType: string

    constructor (labelText: string, color: string, wtpValues: seq<real>, inmbStat: InmbStat, intervalType: string, shortLabel: Option<string>)
      ensures curve.labelText == labelText && curve.color == color && curve.linestyle == "-"
      ensures shortLabel.None? ==> curve.shortLabel == labelText
      ensures shortLabel.Some? ==> curve.shortLabel == shortLabel.value
      ensures curve.xs == wtpValues && curve.ys == [] && curve.frontierXs == [] && curve.frontierYs == []
      ensures this.inmbStat == inmbStat && this.intervalType == intervalType
      ensures fresh(curve)
    {
      var c := new Curve(labelText, color, "-", shortLabel);
      c.xs := wtpValues;
      curve := c;
      this.inmbStat := inmbStat;
      this.intervalType := intervalType;
    }

    /**
     * `INMBCurve.__init__`: the curve over the thresholds, with its values and
     * error bars, or the interval-type error.
     */
    static method Create(labelText: string, color: string, wtpValues: seq<real>, inmbStat: InmbStat, intervalType: string, shortLabel: Option<string>)
      returns (r: Result<INMBCurve, CurveError>)
      ensures r.Success? <==> ParseIntervalType(intervalType).Success?
      ensures r.Failure? ==> r.error == InvalidIntervalType(intervalType)
      ensures r.Success? ==>
                && r.value.curve.labelText == labelText && r.value.curve.color == color && r.value.curve.linestyle == "-"
                && (shortLabel.None? ==> r.value.curve.shortLabel == labelText)
                && (shortLabel.Some? ==> r.value.curve.shortLabel == shortLabel.value)
                && r.value.curve.frontierXs == [] && r.value.curve.frontierYs == []
                && r.value.curve.xs == wtpValues && |r.value.curve.ys| == |wtpValues|
                && (forall k :: 0 <= k < |wtpValues| ==> r.value.curve.ys[k] == inmbStat.incrementalNmb(wtpValues[k]))
      ensures r.Success? && intervalType == "n" ==> r.value.curve.uErrs.None? && r.value.curve.lErrs.None?
      ensures r.Success? && intervalType == "c" ==>
                && r.value.curve.uErrs.Some? && |r.value.curve.uErrs.value| == |wtpValues|
                && r.value.curve.lErrs.Some? && |r.value.curve.lErrs.value| == |wtpValues|
                && forall k :: 0 <= k < |wtpValues| ==>
                     && r.value.curve.ys[k] + r.value.curve.uErrs.value[k] == inmbStat.ci(wtpValues[k]).upper
                     && r.value.curve.ys[k] - r.value.curve.lErrs.value[k] == inmbStat.ci(wtpValues[k]).lower
      ensures r.Success? && intervalType == "p" ==>
                && r.value.curve.uErrs.Some? && |r.value.curve.uErrs.value| == |wtpValues|
                && r.value.curve.lErrs.Some? && |r.value.curve.lErrs.value| == |wtpValues|
                && forall k :: 0 <= k < |wtpValues| ==>
                     && r.value.curve.ys[k] + r.value.curve.uErrs.value[k] == inmbStat.pi(wtpValues[k]).upper
                     && r.value.curve.ys[k] - r.value.curve.lErrs.value[k] == inmbStat.pi(wtpValues[k]).lower
    {
      var c := new INMBCurve(labelText, color, wtpValues, inmbStat, intervalType, shortLabel);
      var o := c.CalculateYsLErrsUErrs();
      if o.Fail? {
        return Failure(o.error);
      }
      return Success(c);
    }

    /**
     * The error bars of the given kind: none for 'n', else the distances from
     * each value to its interval's ends.
     */
    ghost predicate HasErrorBars(kind: IntervalKind)
      reads curve
    {
      && |curve.ys| == |curve.xs|
      && (kind == NoInterval ==> curve.uErrs.None? && curve.lErrs.None?)
      && (kind != NoInterval ==>
            && curve.uErrs.Some? && |curve.uErrs.value| == |curve.xs|
            && curve.lErrs.Some? && |curve.lErrs.value| == |curve.xs|
            && forall k :: 0 <= k < |curve.xs| ==>
                 && curve.ys[k] + curve.uErrs.value[k] == IntervalAt(inmbStat, kind, curve.xs[k]).upper
                 && curve.ys[k] - curve.lErrs.value[k] == IntervalAt(inmbStat, kind, curve.xs[k]).lower)
    }

    /**
     * `_calculate_ys_lerrs_uerrs`: the expected benefit at every threshold,
     * then the error bars of the interval type, or the interval-type error.
     */
    method CalculateYsLErrsUErrs() returns (o: Outcome<CurveError>)
      modifies curve
      ensures o.Pass? <==> ParseIntervalType(intervalType).Success?
      ensures o.Fail? ==> o.error == InvalidIntervalType(intervalType)
      ensures curve.xs == old(curve.xs) && |curve.ys| == |curve.xs|
      ensures forall k :: 0 <= k < |curve.xs| ==> curve.ys[k] == inmbStat.incrementalNmb(curve.xs[k])
      ensures curve.frontierXs == old(curve.frontierXs) && curve.frontierYs == old(curve.frontierYs)
      ensures o.Pass? ==> HasErrorBars(ParseIntervalType(intervalType).value)
    {
      curve.lErrs := Some([]);
      curve.uErrs := Some([]);
      var xs := curve.xs;
      curve.ys := seq(|xs|, k requires 0 <= k < |xs| => inmbStat.incrementalNmb(xs[k]));
      var kind := ParseIntervalType(intervalType);
      if kind.Failure? {
        return Fail(kind.error);
      }
      if kind.value != NoInterval {
        var intervals := seq(|xs|, k requires 0 <= k < |xs| => IntervalAt(inmbStat, kind.value, xs[k]));
        curve.uErrs := Some(UpperErrors(curve.ys, intervals));
        curve.lErrs := Some(LowerErrors(curve.ys, intervals));
      } else {
        curve.uErrs, curve.lErrs := None, None;
      }
      return Pass;
    }
  }

  // ---------------------------------------------------------------------
  // ExpHealthCurve

  /** The health-outcome statistic: its mean, its t-based confidence interval and its percentile interval (alpha = 0.05). */
  datatype EffectStat = EffectStat(mean: real, tCI: Interval, pi: Interval)

  /** The interval of the given kind, or None for no interval. */
  function EffectInterval(stat: EffectStat, kind: IntervalKind): Option<Interval>
  {
    match kind
    case Confidence => Some(stat.tCI)
    case Percentile => Some(stat.pi)
    case NoInterval => None
  }

  /** The lower and upper error of the mean against an interval, or None for both without one. */
  function MeanErrors(mean: real, interval: Option<Interval>): (e: (Option<real>, Option<real>))
    ensures interval.None? ==> e.0.None? && e.1.None?
    ensures interval.Some? ==>
              && e.0.Some? && e.1.Some?
              && mean - e.0.value == interval.value.lower && mean + e.1.value == interval.value.upper
  {
    if interval.Some? then (Some(mean - interval.value.lower), Some(interval.value.upper - mean))
    else (None, None)
  }

  /** The expected health outcome of one strategy, plotted against a growing list of budgets. */
  class ExpHealthCurve {
    const curve: Curve
    const dEffectMean: real
    const lErr: Option<real>
    const uErr: Option<real>
    var lErrs: seq<Option<real>>
    var uErrs: seq<Option<real>>

    /** The four lists grow in lockstep. */
    ghost predicate Valid()
      reads this, curve
    {
      |curve.xs| == |curve.ys| == |lErrs| == |uErrs|
    }

    constructor (labelText: string, color: string, stat: EffectStat, kind: IntervalKind, shortLabel: Option<string>)
      ensures Valid() && fresh(curve)
      ensures curve.labelText == labelText && curve.color == color && curve.linestyle == "-"
      ensures shortLabel.None? ==> curve.shortLabel == labelText
      ensures shortLabel.Some? ==> curve.shortLabel == shortLabel.value
      ensures curve.xs == [] && curve.ys == [] && curve.frontierXs == [] && curve.frontierYs == []
      ensures curve.lErrs.None? && curve.uErrs.None? && lErrs == [] && uErrs == []
      ensures dEffectMean == stat.mean
      ensures (lErr, uErr) == MeanErrors(stat.mean, EffectInterval(stat, kind))
    {
      curve := new Curve(labelText, color, "-", shortLabel);
      dEffectMean := stat.mean;
      lErrs, uErrs := [], [];
      var errors := MeanErrors(stat.mean, EffectInterval(stat, kind));
      lErr, uErr := errors.0, errors.1;
    }

    /**
     * `ExpHealthCurve.__init__`: the curve with the mean of the statistic and
     * its errors against the interval of the interval type, or the
     * interval-type error.
     */
    static method Create(labelText: string, color: string, stat: EffectStat, intervalType: string, shortLabel: Option<string>)
      returns (r: Result<ExpHealthCurve, CurveError>)
      ensures r.Success? <==> ParseIntervalType(intervalType).Success?
      ensures r.Failure? ==> r.error == InvalidIntervalType(intervalType)
      ensures r.Success? ==>
                && r.value.Valid()
                && r.value.curve.labelText == labelText && r.value.curve.color == color && r.value.curve.linestyle == "-"
                && (shortLabel.None? ==> r.value.curve.shortLabel == labelText)
                && (shortLabel.Some? ==> r.value.curve.shortLabel == shortLabel.value)
                && r.value.curve.xs == [] && r.value.curve.ys == []
                && r.value.curve.frontierXs == [] && r.value.curve.frontierYs == []
                && r.value.lErrs == [] && r.value.uErrs == []
                && r.value.dEffectMean == stat.mean
      ensures r.Success? && intervalType == "n" ==> r.value.lErr.None? && r.value.uErr.None?
      ensures r.Success? && intervalType == "c" ==>
                && r.value.lErr.Some? && stat.mean - r.value.lErr.value == stat.tCI.lower
                && r.value.uErr.Some? && stat.mean + r.value.uErr.value == stat.tCI.upper
      ensures r.Success? && intervalType == "p" ==>
                && r.value.lErr.Some? && stat.mean - r.value.lErr.value == stat.pi.lower
                && r.value.uErr.Some? && stat.mean + r.value.uErr.value == stat.pi.upper
    {
      var kind := ParseIntervalType(intervalType);
      if kind.Failure? {
        return Failure(kind.error);
      }
      var c := new ExpHealthCurve(labelText, color, stat, kind.value, shortLabel);
      return Success(c);
    }

    /** `update_feasibility(b)`: one more point, the budget b with the mean and its errors. */
    method UpdateFeasibility(b: real)
      requires Valid()
      modifies this`lErrs, this`uErrs, curve`xs, curve`ys
      ensures Valid()
      ensures curve.xs == old(curve.xs) + [b] && curve.ys == old(curve.ys) + [dEffectMean]
      ensures lErrs == old(lErrs) + [lErr] && uErrs == old(uErrs) + [uErr]
      ensures curve.frontierXs == old(curve.frontierXs) && curve.frontierYs == old(curve.frontierYs)
      ensures curve.lErrs == old(curve.lErrs) && curve.uErrs == old(curve.uErrs)
    {
      curve.xs := curve.xs + [b];
      curve.ys := curve.ys + [dEffectMean];
      lErrs := lErrs + [lErr];
      uErrs := uErrs + [uErr];
    }
  }
}
