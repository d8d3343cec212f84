// Axis ticks of deampy/plots/plot_support.py, over exact reals.

module PlotSupport {
  import opened Numerics

  /** The k-th tick of a range starting at lo in steps of delta. */
  function Tick(lo: real, delta: real, k: nat): real
  {
    lo + (k as real) * delta
  }

  /** How many ticks a range [lo, hi] holds in steps of delta > 0: none when lo > hi. */
  function TickCount(lo: real, hi: real, delta: real): (n: nat)
    requires delta > 0.0
    ensures lo > hi <==> n == 0
  {
    if lo > hi then 0 else ((hi - lo) / delta).Floor + 1
  }

  /** The ticks of a range, one by one: each is in range and the next one is not. */
  ghost predicate AreTicks(ticks: seq<real>, lo: real, hi: real, delta: real)
  {
    && (forall k :: 0 <= k < |ticks| ==> ticks[k] == Tick(lo, delta, k) && ticks[k] <= hi)
    && Tick(lo, delta, |ticks|) > hi
  }

  /** One step further is one delta further. */
  lemma TickStep(lo: real, delta: real, k: nat)
    ensures Tick(lo, delta, k + 1) == Tick(lo, delta, k) + delta
  {
    assert ((k + 1) as real) * delta == (k as real) * delta + delta;
  }

  /**
   * The range holds n > 0 ticks exactly when the (n-1)-th tick is at most hi
   * and the n-th is beyond it.
   */
  lemma CountOfTicks(lo: real, hi: real, delta: real, n: nat)
    requires delta > 0.0 && n > 0
    ensures TickCount(lo, hi, delta) == n <==> Tick(lo, delta, n - 1) <= hi < Tick(lo, delta, n)
  {
    if Tick(lo, delta, n - 1) <= hi < Tick(lo, delta, n) {
      QuotientAbove(hi - lo, delta, (n - 1) as real);
      QuotientBelow(hi - lo, delta, n as real);
    }
    if TickCount(lo, hi, delta) == n {
      ScaledQuotientBounds(hi - lo, delta, (n - 1) as real, n as real);
    }
  }

  /** Every range of ticks of a given count that satisfies AreTicks is that count long. */
  lemma {:induction false} TicksAreCounted(ticks: seq<real>, lo: real, hi: real, delta: real)
    requires delta > 0.0 && AreTicks(ticks, lo, hi, delta)
    ensures |ticks| == TickCount(lo, hi, delta)
  {
    if |ticks| == 0 {
      assert Tick(lo, delta, 0) == lo;
    } else {
      CountOfTicks(lo, hi, delta, |ticks|);
    }
  }

  /** The floor of the step count as the loop advances: one tick fewer lies ahead. */
  lemma RemainingShrinks(v: real, hi: real, delta: real)
    requires delta > 0.0
    ensures ((hi - (v + delta)) / delta).Floor == ((hi - v) / delta).Floor - 1
  {
    DivAdd(hi - v, -1.0 * delta, delta);
    MulDivAssoc(-1.0, delta, delta);
    DivSelf(delta);
    assert (hi - v) + -1.0 * delta == hi - (v + delta);
  }

  /**
   * `calculate_ticks`: from interval[0], the ticks up to interval[1] in
   * steps of delta. The loop ends only when delta > 0 or the range is empty.
   */
  method CalculateTicks(interval: (real, real), delta: real) returns (values: seq<real>)
    requires delta > 0.0 || interval.0 > interval.1
    ensures interval.0 > interval.1 ==> values == []
    ensures interval.0 <= interval.1 ==> |values| > 0 && values[0] == interval.0
    ensures AreTicks(values, interval.0, interval.1, delta)
    ensures delta > 0.0 ==> |values| == TickCount(interval.0, interval.1, delta)
  {
    var lo, hi := interval.0, interval.1;
    values := [];
    var v := lo;
    assert Tick(lo, delta, 0) == lo;
    while v <= hi
      invariant v <= hi || |values| > 0 ==> delta > 0.0
      invariant v == Tick(lo, delta, |values|)
      invariant forall k :: 0 <= k < |values| ==> values[k] == Tick(lo, delta, k) && values[k] <= hi
      decreases if v <= hi then ((hi - v) / delta).Floor + 1 else 0
    {
      TickStep(lo, delta, |values|);
      RemainingShrinks(v, hi, delta);
      values := values + [v];
      v := v + delta;
    }
    if delta > 0.0 {
      TicksAreCounted(values, lo, hi, delta);
    }
  }
}
