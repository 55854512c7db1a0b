/**
 * The arithmetic of the offer queries: days to finance, the pro-rated financing rate
 * (360-day year) and the early-payment amount, with rounding to whole cents.
 */
module Pricing {

  /** Rounds to the nearest integer; an exact half is rounded up. */
  function Round(x: real): (r: int)
    ensures x - 0.5 < r as real <= x + 0.5
  {
    (x + 0.5).Floor
  }

  lemma RoundMonotone(x: real, y: real)
    requires x <= y
    ensures Round(x) <= Round(y)
  {
  }

  /** Whole days from `today` to the maturity day; negative once the invoice is overdue. */
  function DaysToFinance(today: int, maturityDay: int): (days: int)
    ensures today + days == maturityDay
  {
    maturityDay - today
  }

  /** The annual rate pro-rated to `days` on a 360-day year, in basis points. */
  function FinancingRate(annualRateInBps: int, days: int): (rate: real)
    ensures days == 360 ==> rate == annualRateInBps as real
    ensures days == 0 ==> rate == 0.0
  {
    (annualRateInBps * days) as real / 360.0
  }

  /** The face value minus the discount `value * rate` bps, rounded to whole cents. */
  function EarlyPaymentAmount(valueInCents: int, financingRate: real): int {
    valueInCents - Round(valueInCents as real * financingRate * 0.0001)
  }

  /** The discount actually deducted is within half a cent of the exact discount. */
  lemma EarlyPaymentAmountIsExactDiscountRounded(valueInCents: int, financingRate: real)
    ensures var exact := valueInCents as real * financingRate / 10000.0;
            var deducted := (valueInCents - EarlyPaymentAmount(valueInCents, financingRate)) as real;
            exact - 0.5 < deducted <= exact + 0.5
  {
    assert valueInCents as real * financingRate * 0.0001 == valueInCents as real * financingRate / 10000.0;
  }

  /** A longer term or a higher annual rate never gives a lower pro-rated rate. */
  lemma FinancingRateMonotone(annual1: int, annual2: int, days1: int, days2: int)
    requires 0 <= annual1 <= annual2 && 0 <= days1 <= days2
    ensures FinancingRate(annual1, days1) <= FinancingRate(annual2, days2)
  {
    MulMonotone(annual1, annual2, days1, days2);
  }

  lemma MulMonotone(a1: int, a2: int, b1: int, b2: int)
    requires 0 <= a1 <= a2 && 0 <= b1 <= b2
    ensures a1 * b1 <= a2 * b2
  {
    assert a1 * b1 <= a2 * b1;
    assert a2 * b1 <= a2 * b2;
  }

  /**
   * For a fixed non-negative invoice value, a lower or equal rate never yields a smaller
   * early-payment amount: the largest amount is the lowest rate's.
   */
  lemma EarlyPaymentAmountAntitone(valueInCents: int, rate1: real, rate2: real)
    requires valueInCents >= 0 && rate1 <= rate2
    ensures EarlyPaymentAmount(valueInCents, rate1) >= EarlyPaymentAmount(valueInCents, rate2)
  {
    var v := valueInCents as real;
    assert v * (rate2 - rate1) >= 0.0 by { RealMulNonNegative(v, rate2 - rate1); }
    assert v * rate1 * 0.0001 <= v * rate2 * 0.0001;
    RoundMonotone(v * rate1 * 0.0001, v * rate2 * 0.0001);
  }

  lemma RealMulNonNegative(a: real, b: real)
    requires a >= 0.0 && b >= 0.0
    ensures a * b >= 0.0
  {
  }

  /** Value 1,000,000 cents, 30 days, 240 bps a year: rate 20 bps, early payment 998,000 cents. */
  lemma ConcreteScenario()
    ensures FinancingRate(240, 30) == 20.0
    ensures EarlyPaymentAmount(1000000, FinancingRate(240, 30)) == 998000
  {
  }
}
