/**
 * Real-number helpers shared by the Markov model: Python's `sum` and `max`
 * over lists of floats, and the laws assumed of `np.exp` and `np.log`,
 * which the model takes as function parameters.
 */
module Numerics {

  /**
   * Python's `sum` of a list. It is not itself recursive (SumLeft is), so
   * that a product with a sum is one and the same term wherever it is written.
   */
  function Sum(s: seq<real>): real
  {
    SumLeft(s)
  }

  /** The sum of a list, accumulated left to right. */
  function SumLeft(s: seq<real>): real
  {
    if |s| == 0 then 0.0 else SumLeft(s[..|s| - 1]) + s[|s| - 1]
  }

  /** Adding one more element to a prefix adds that element to its sum. */
  lemma SumPrefixStep(s: seq<real>, k: nat)
    requires k < |s|
    ensures Sum(s[..k + 1]) == Sum(s[..k]) + s[k]
  {
    assert s[..k + 1][..k] == s[..k];
  }

  /** Scaling every element scales the sum of every prefix. */
  lemma {:induction false} SumScaled(t: seq<real>, s: seq<real>, k: real, n: nat)
    requires |t| == |s| && n <= |s|
    requires forall j :: 0 <= j < |s| ==> t[j] == k * s[j]
    ensures Sum(t[..n]) == k * Sum(s[..n])
  {
    if n > 0 {
      SumScaled(t, s, k, n - 1);
      SumPrefixStep(t, n - 1);
      SumPrefixStep(s, n - 1);
      assert k * Sum(s[..n - 1]) + k * s[n - 1] == k * (Sum(s[..n - 1]) + s[n - 1]);
    }
  }

  /** Replacing one element changes the sum of every prefix holding it by the difference. */
  lemma {:induction false} SumUpdate(s: seq<real>, i: nat, v: real, n: nat)
    requires i < |s| && n <= |s|
    ensures Sum(s[i := v][..n]) == Sum(s[..n]) + (if i < n then v - s[i] else 0.0)
  {
    if n > 0 {
      SumUpdate(s, i, v, n - 1);
      SumPrefixStep(s, n - 1);
      SumPrefixStep(s[i := v], n - 1);
    }
  }

  /**
   * A list whose entry i is e and whose other entries are (1 - e) times the
   * matching weights (weight i being 0) sums to e + (1 - e) times the weights' sum.
   */
  lemma SplitSum(row: seq<real>, w: seq<real>, e: real, i: nat)
    requires |row| == |w| && i < |row| && row[i] == e && w[i] == 0.0
    requires forall j :: 0 <= j < |row| && j != i ==> row[j] == (1.0 - e) * w[j]
    ensures Sum(row) == e + (1.0 - e) * Sum(w)
  {
    var off := row[i := 0.0];
    forall j | 0 <= j < |off|
      ensures off[j] == (1.0 - e) * w[j]
    {
    }
    SumScaled(off, w, 1.0 - e, |off|);
    SumUpdate(row, i, 0.0, |off|);
    assert row[..|off|] == row;
    assert off[..|off|] == off;
    assert w[..|off|] == w;
  }

  /** Python's `max` of a non-empty list: the first element no later element exceeds. */
  function MaxOf(s: seq<real>): (m: real)
    requires |s| > 0
    ensures exists k :: 0 <= k < |s| && s[k] == m
    ensures forall k :: 0 <= k < |s| ==> s[k] <= m
  {
    if |s| == 1 then s[0]
    else
      var m := MaxOf(s[..|s| - 1]);
      if s[|s| - 1] > m then s[|s| - 1] else m
  }

  /** What the model assumes of `np.exp`: exp(0) = 1 and 0 < exp(x) <= 1 for x <= 0. */
  ghost predicate ExpLaws(exp: real -> real)
  {
    && exp(0.0) == 1.0
    && forall x :: x <= 0.0 ==> 0.0 < exp(x) <= 1.0
  }

  /** What the model assumes of `np.log`: ln(x) < 0 on the open interval (0, 1). */
  ghost predicate LnLaws(ln: real -> real)
  {
    forall x :: 0.0 < x < 1.0 ==> ln(x) < 0.0
  }

  // Small facts of real arithmetic that the solver does not find in a large context.

  lemma SameArgument(f: real -> real, a: real, b: real)
    requires a == b
    ensures f(a) == f(b)
  {
  }

  lemma SameProduct(a: real, b: real, c: real, d: real)
    requires a == c && b == d
    ensures a * b == c * d
  {
  }

  lemma SameShare(k1: real, v1: real, d1: real, k2: real, v2: real, d2: real)
    requires k1 == k2 && v1 == v2 && d1 == d2 && d1 != 0.0
    ensures k1 * v1 / d1 == k2 * v2 / d2
  {
  }

  lemma DivAdd(x: real, y: real, d: real)
    requires d != 0.0
    ensures x / d + y / d == (x + y) / d
  {
  }

  lemma MulDivAssoc(c: real, x: real, d: real)
    requires d != 0.0
    ensures c * x / d == c * (x / d)
  {
  }

  lemma ScaleDown(s: real, q: real)
    requires s >= 0.0 && 0.0 <= q <= 1.0
    ensures 0.0 <= s * q <= s
  {
  }

  lemma ProductNonNegative(a: real, b: real)
    requires a >= 0.0 && b >= 0.0
    ensures a * b >= 0.0
  {
  }

  lemma QuotientSign(a: real, d: real)
    requires d > 0.0
    ensures 1.0 / d > 0.0
    ensures a / d > 0.0 ==> a > 0.0
  {
  }

  lemma DivSelf(d: real)
    requires d != 0.0
    ensures d / d == 1.0
  {
  }

  lemma DivNonNegative(a: real, d: real)
    requires a >= 0.0 && d > 0.0
    ensures a / d >= 0.0
  {
  }

  lemma CancelFactor(l: real, x: real, dt: real)
    requires x != 1.0 && dt != 0.0
    ensures l / ((1.0 - x) * dt) * (1.0 - x) == l / dt
  {
    var d := (1.0 - x) * dt;
    assert d != 0.0;
    assert l / d * d == l;
    assert l / d * (1.0 - x) * dt == l;
  }

  /** b <= x/d when b*d <= x, for a positive d. */
  lemma QuotientAbove(x: real, d: real, b: real)
    requires d > 0.0 && b * d <= x
    ensures b <= x / d
  {
    assert x / d - b == (x - b * d) / d;
  }

  /** x/d < b when x < b*d, for a positive d. */
  lemma QuotientBelow(x: real, d: real, b: real)
    requires d > 0.0 && x < b * d
    ensures x / d < b
  {
    assert b - x / d == (b * d - x) / d;
  }

  /** a*d <= x < b*d when a <= x/d < b, for a positive d. */
  lemma ScaledQuotientBounds(x: real, d: real, a: real, b: real)
    requires d > 0.0 && a <= x / d < b
    ensures a * d <= x < b * d
  {
    var q := x / d;
    assert q * d == x;
    assert (q - a) * d >= 0.0;
    assert (b - q) * d > 0.0;
  }
}
