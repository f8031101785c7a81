/** The confidence formula that app.py (`calculate_confidence_score`) and script.js
    (`calculateConfidenceScore`) both compute: four weighted terms, summed and then
    clamped to [0, 1]. The two front ends differ only in how they reach the formula
    (exceptions against NaN), which their own modules model. */
module Scoring {
  import opened Wrappers

  /** What the scorer can return: a number, or NaN when an operand was NaN. */
  datatype Score = Value(x: real) | NotANumber

  function Min(a: real, b: real): real { if b < a then b else a }

  /** `min(max(score, 0), 1)`. */
  function Clamp(x: real): (r: real)
    ensures 0.0 <= r <= 1.0
    ensures 0.0 <= x <= 1.0 ==> r == x
    ensures x < 0.0 ==> r == 0.0
    ensures x > 1.0 ==> r == 1.0
  {
    if x < 0.0 then 0.0 else if x > 1.0 then 1.0 else x
  }

  /** Price similarity: `0.4 * (1 - price_diff / price_threshold)`, not clamped. */
  function PriceTerm(priceDiff: real, threshold: real): real
    requires threshold != 0.0
  {
    0.4 * (1.0 - priceDiff / threshold)
  }

  /** The flat weight of the time overlap the matcher already established. */
  const OverlapTerm: real := 0.3

  /** Close-price similarity: `0.3 * (1 - min(close_diff / price_threshold, 1))`. */
  function CloseTerm(closeDiff: real, threshold: real): real
    requires threshold != 0.0
  {
    0.3 * (1.0 - Min(closeDiff / threshold, 1.0))
  }

  /** What replaces the close-price term when close prices are not compared. */
  const CloseBaseline: real := 0.15

  /** The bonus for equal contract quantities. */
  function QuantityBonus(sameQuantity: bool): real {
    if sameQuantity then 0.1 else 0.0
  }

  /** The unclamped sum. `closeDiff` is `Some(d)` when close prices are compared
      and `None` when they are not. */
  function RawScore(priceDiff: real, threshold: real, closeDiff: Option<real>, sameQuantity: bool): real
    requires threshold != 0.0
  {
    PriceTerm(priceDiff, threshold) + OverlapTerm
      + (match closeDiff case Some(d) => CloseTerm(d, threshold) case None => CloseBaseline)
      + QuantityBonus(sameQuantity)
  }

  /** The clamped score, always in [0, 1]. */
  function ConfidenceFormula(priceDiff: real, threshold: real, closeDiff: Option<real>, sameQuantity: bool): (r: real)
    requires threshold != 0.0
    ensures 0.0 <= r <= 1.0
  {
    Clamp(RawScore(priceDiff, threshold, closeDiff, sameQuantity))
  }

  /** Within the matcher's own bounds (a positive threshold, a price difference no
      larger than it, a non-negative close difference) each term stays in its range:
      the price term in [0, 0.4], the close term in [0, 0.3], the bonus 0 or 0.1; so
      before clamping the score is at least 0.3, at least 0.45 without close prices,
      and at most 1.1. */
  lemma RawScoreRange(priceDiff: real, threshold: real, closeDiff: Option<real>, sameQuantity: bool)
    requires 0.0 < threshold && 0.0 <= priceDiff <= threshold
    requires closeDiff.Some? ==> closeDiff.value >= 0.0
    ensures 0.0 <= PriceTerm(priceDiff, threshold) <= 0.4
    ensures closeDiff.Some? ==> 0.0 <= CloseTerm(closeDiff.value, threshold) <= 0.3
    ensures 0.3 <= RawScore(priceDiff, threshold, closeDiff, sameQuantity) <= 1.1
    ensures closeDiff.None? ==> 0.45 <= RawScore(priceDiff, threshold, closeDiff, sameQuantity)
  {
    DivisionBetweenZeroAndOne(priceDiff, threshold);
    if closeDiff.Some? {
      assert 0.0 <= closeDiff.value / threshold by { NonNegativeQuotient(closeDiff.value, threshold); }
    }
  }

  lemma DivisionBetweenZeroAndOne(a: real, b: real)
    requires 0.0 < b && 0.0 <= a <= b
    ensures 0.0 <= a / b <= 1.0
  {
    assert a / b * b == a;
  }

  lemma NonNegativeQuotient(a: real, b: real)
    requires 0.0 < b && 0.0 <= a
    ensures 0.0 <= a / b
  {
  }

  /** Closer entry prices never lower the score. */
  lemma {:induction false} ScoreMonotoneInPrice(d1: real, d2: real, threshold: real, closeDiff: Option<real>, sameQuantity: bool)
    requires 0.0 < threshold && d1 <= d2
    ensures ConfidenceFormula(d1, threshold, closeDiff, sameQuantity) >= ConfidenceFormula(d2, threshold, closeDiff, sameQuantity)
  {
    assert d1 / threshold <= d2 / threshold by { QuotientMonotone(d1, d2, threshold); }
  }

  lemma QuotientMonotone(a: real, b: real, c: real)
    requires 0.0 < c && a <= b
    ensures a / c <= b / c
  {
    assert b / c - a / c == (b - a) / c;
  }

  /** Equal quantities never lower the score. */
  lemma QuantityBonusNeverLowers(priceDiff: real, threshold: real, closeDiff: Option<real>)
    requires threshold != 0.0
    ensures ConfidenceFormula(priceDiff, threshold, closeDiff, true) >= ConfidenceFormula(priceDiff, threshold, closeDiff, false)
  {
  }

  /** A price difference beyond the threshold makes the price term negative: the
      clamp acts on the sum only, not on this term. */
  lemma PriceTermNegativeBeyondThreshold(priceDiff: real, threshold: real)
    requires 0.0 < threshold < priceDiff
    ensures PriceTerm(priceDiff, threshold) < 0.0
  {
    assert priceDiff / threshold > 1.0 by { assert priceDiff / threshold * threshold == priceDiff; }
  }

  /** The worked scenario: entry prices 100 and 102, threshold 5, close prices
      not compared. The score is 0.4 * 0.6 + 0.3 + 0.15 = 0.69, or 0.79 with equal
      quantities. */
  lemma WorkedScenario()
    ensures ConfidenceFormula(2.0, 5.0, None, false) == 0.69
    ensures ConfidenceFormula(2.0, 5.0, None, true) == 0.79
  {
  }
}
