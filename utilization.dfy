/** The arithmetic of the utilization bar chart: the rounded percentage of
    `used` over `total`, and the three severity flags derived from it and
    the optional warning/error thresholds. */
module Utilization {

  datatype Option<+T> = None | Some(value: T)

  /** The value `Math.round(100 * (used / total))` takes for integer `used`
      and `total`: an integer, or one of the non-finite numbers a division
      by zero produces. */
  datatype Percentage = Finite(value: int) | PosInfinity | NegInfinity | NotANumber

  /** The `thresholds` binding: warning and error percentages. */
  datatype Thresholds = Thresholds(warning: int, error: int)

  /** The three colour flags the chart exposes to its template. */
  datatype Flags = Flags(isOk: bool, isWarn: bool, isError: bool)

  /** The exact value `100 * (used / total)`, free of rounding errors. */
  ghost function Ratio(used: int, total: int): real
    requires total != 0
  {
    100.0 * ((used as real) / (total as real))
  }

  /** `k` is what `Math.round` gives for `x`: the integer closest to `x`,
      the larger one when two are equally close. */
  ghost predicate IsRoundHalfUp(k: int, x: real)
  {
    (k as real) - 0.5 <= x < (k as real) + 0.5
  }

  /** Round `n / d` to the nearest integer, halves upward. */
  function RoundHalfUp(n: int, d: int): (k: int)
    requires d > 0
    ensures 2 * d * k - d <= 2 * n < 2 * d * k + d
  {
    var k := (2 * n + d) / (2 * d);
    assert 2 * n + d == (2 * d) * k + (2 * n + d) % (2 * d);
    k
  }

  /** Dividing bounds on `n` by a positive `d`. */
  lemma DivideBounds(lo: real, n: real, hi: real, d: real)
    requires d > 0.0
    requires lo * d <= n < hi * d
    ensures lo <= n / d < hi
  {
  }

  /** From the integer bounds of `RoundHalfUp` to the real-number definition
      of rounding. */
  lemma RoundHalfUpIsRounding(n: int, d: int, k: int)
    requires d > 0
    requires 2 * d * k - d <= 2 * n < 2 * d * k + d
    ensures IsRoundHalfUp(k, (n as real) / (d as real))
  {
    var dr, kr := d as real, k as real;
    assert (2 * d * k - d) as real == 2.0 * dr * kr - dr;
    assert (2 * d * k + d) as real == 2.0 * dr * kr + dr;
    assert (kr - 0.5) * dr <= n as real < (kr + 0.5) * dr;
    DivideBounds(kr - 0.5, n as real, kr + 0.5, dr);
  }

  /** `Ratio` as a single quotient, with the divisor's sign moved either way. */
  lemma RatioAsQuotient(used: int, total: int)
    requires total != 0
    ensures Ratio(used, total) == ((100 * used) as real) / (total as real)
    ensures Ratio(used, total) == ((-100 * used) as real) / ((-total) as real)
  {
  }

  /** The percentage the watch handler stores in `chartData.percentageUsed`. */
  function Percent(used: int, total: int): (p: Percentage)
    ensures total != 0 ==> p.Finite? && IsRoundHalfUp(p.value, Ratio(used, total))
    ensures p == PosInfinity <==> total == 0 && used > 0
    ensures p == NegInfinity <==> total == 0 && used < 0
    ensures p == NotANumber <==> total == 0 && used == 0
  {
    if total > 0 then
      var k := RoundHalfUp(100 * used, total);
      RoundHalfUpIsRounding(100 * used, total, k);
      RatioAsQuotient(used, total);
      Finite(k)
    else if total < 0 then
      var k := RoundHalfUp(-100 * used, -total);
      RoundHalfUpIsRounding(-100 * used, -total, k);
      RatioAsQuotient(used, total);
      Finite(k)
    else if used > 0 then PosInfinity
    else if used < 0 then NegInfinity
    else NotANumber
  }

  /** No other integer rounds `Ratio(used, total)`: `Percent` is the one. */
  lemma PercentUnique(used: int, total: int, k: int)
    requires total != 0
    requires IsRoundHalfUp(k, Ratio(used, total))
    ensures Percent(used, total) == Finite(k)
  {
  }

  /** Cancelling a positive factor on both sides of `<=`. */
  lemma CancelPositive(d: int, a: int, b: int)
    requires d > 0
    requires d * a <= d * b
    ensures a <= b
  {
  }

  /** A `used` within `[0, total]` gives a percentage within `[0, 100]`;
      each bound holds on its own. */
  lemma PercentBounds(used: int, total: int)
    requires total > 0
    ensures used >= 0 ==> 0 <= Percent(used, total).value
    ensures used <= total ==> Percent(used, total).value <= 100
  {
    var k := RoundHalfUp(100 * used, total);
    assert Percent(used, total).value == k;
    if used >= 0 {
      // 0 <= 200 * used < total * (2 * k + 1)
      assert total * (-1) < total * (2 * k + 1);
      CancelPositive(total, 0, 2 * k + 1);
    }
    if used <= total {
      // total * (2 * k - 1) <= 200 * used <= total * 200
      assert total * (2 * k - 1) <= total * 200;
      CancelPositive(total, 2 * k - 1, 200);
    }
  }

  /** More used of the same total never gives a smaller percentage. */
  lemma PercentMonotone(used1: int, used2: int, total: int)
    requires total > 0
    requires used1 <= used2
    ensures Percent(used1, total).value <= Percent(used2, total).value
  {
    var k1, k2 := RoundHalfUp(100 * used1, total), RoundHalfUp(100 * used2, total);
    assert Percent(used1, total).value == k1 && Percent(used2, total).value == k2;
    // total * (2 * k1 - 1) <= 200 * used1 <= 200 * used2 < total * (2 * k2 + 1)
    assert total * (2 * k1 - 1) < total * (2 * k2 + 1);
    CancelPositive(total, 2 * k1 - 2, 2 * k2);
  }

  /** Nothing used is 0%, everything used is 100%. */
  lemma PercentEndpoints(total: int)
    requires total != 0
    ensures Percent(0, total) == Finite(0)
    ensures Percent(total, total) == Finite(100)
  {
    var t := total as real;
    assert Ratio(0, total) == 0.0;
    assert (t / t) * t == t;
    assert Ratio(total, total) == 100.0;
    PercentUnique(0, total, 0);
    PercentUnique(total, total, 100);
  }

  /** JavaScript's `p > x` for a percentage and a finite threshold. It is
      strict: the threshold itself is not above it, and NaN never is. */
  predicate Above(p: Percentage, x: int)
    ensures Above(p, x) ==> p != Finite(x) && p != NotANumber
  {
    match p
    case Finite(v) => v > x
    case PosInfinity => true
    case _ => false
  }

  /** JavaScript's `p < x` for a percentage and a finite threshold. It is
      strict, NaN is below nothing, and apart from NaN exactly one of above,
      below and equal to the threshold holds. */
  predicate Below(p: Percentage, x: int)
    ensures Below(p, x) ==> p != Finite(x) && p != NotANumber
    ensures Below(p, x) ==> !Above(p, x)
    ensures p != NotANumber && p != Finite(x) ==> (Below(p, x) <==> !Above(p, x))
  {
    match p
    case Finite(v) => v < x
    case NegInfinity => true
    case _ => false
  }

  /** Comparisons against two thresholds in order: above the higher one is
      above the lower one, below the lower one is below the higher one. */
  lemma ThresholdOrder(p: Percentage, x: int, y: int)
    requires x <= y
    ensures Above(p, y) ==> Above(p, x)
    ensures Below(p, x) ==> Below(p, y)
  {
  }

  /** The three flags the watch handler assigns for percentage `p`; every
      flag is false when there are no thresholds. */
  function Classify(p: Percentage, thresholds: Option<Thresholds>): (f: Flags)
    ensures thresholds.None? ==> !f.isOk && !f.isWarn && !f.isError
    ensures thresholds.Some? && p.Finite? ==>
      var t, v := thresholds.value, p.value;
      && (f.isError <==> v > t.error)
      && (f.isOk <==> v < t.warning)
      && (f.isWarn <==> t.warning < v < t.error)
    ensures p == NotANumber ==> !f.isOk && !f.isWarn && !f.isError
    ensures thresholds.Some? && p == PosInfinity ==> f == Flags(false, false, true)
    ensures thresholds.Some? && p == NegInfinity ==> f == Flags(true, false, false)
    // mutual exclusion
    ensures !(f.isWarn && f.isOk) && !(f.isWarn && f.isError)
    ensures thresholds.Some? && thresholds.value.warning <= thresholds.value.error ==>
      !(f.isOk && f.isError)
    // the unclassified gap, both directions
    ensures thresholds.Some? && thresholds.value.warning <= thresholds.value.error ==>
      ((!f.isOk && !f.isWarn && !f.isError) <==>
        p == NotANumber || p == Finite(thresholds.value.warning) || p == Finite(thresholds.value.error))
  {
    match thresholds
    case None => Flags(false, false, false)
    case Some(t) =>
      Flags(Below(p, t.warning), Above(p, t.warning) && Below(p, t.error), Above(p, t.error))
  }

  /** Without the ordering `warning <= error`, which nothing checks, a
      percentage can be both ok and in error, and a value equal to a
      threshold no longer falls into the gap. */
  lemma InvertedThresholds()
    ensures Classify(Finite(70), Some(Thresholds(90, 50))) == Flags(true, false, true)
    ensures Classify(Finite(90), Some(Thresholds(90, 50))) == Flags(false, false, true)
    ensures Classify(Finite(50), Some(Thresholds(90, 50))) == Flags(true, false, false)
  {
  }

  /** The data sets of the directive's documentation example: the first
      chart has no thresholds, the other four share the thresholds 60 and 85. */
  lemma DocumentationExample()
    ensures Percent(8, 24) == Finite(33)
    ensures Classify(Percent(8, 24), None) == Flags(false, false, false)
    ensures Classify(Percent(25, 100), Some(Thresholds(60, 85))) == Flags(true, false, false)
    ensures Percent(420, 500) == Finite(84)
    ensures Classify(Percent(420, 500), Some(Thresholds(60, 85))) == Flags(false, true, false)
    ensures Classify(Percent(350, 500), Some(Thresholds(60, 85))) == Flags(false, true, false)
    ensures Percent(450, 500) == Finite(90)
    ensures Classify(Percent(450, 500), Some(Thresholds(60, 85))) == Flags(false, false, true)
  {
  }
}
