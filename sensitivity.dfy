/** The sensitivity analysis: the default sweeps around the base exit
    multiple, revenue growth and exit margin, the MOIC and two-flow IRR of each
    exit multiple, and the arguments of the temporary models built for each
    growth rate and exit margin. */
module Sensitivity {
  import opened Common
  import opened Inputs
  import Returns

  /** The default sweep: the base value and one and two units either side. */
  function SweepAround(center: real): (sweep: seq<real>)
    ensures |sweep| == 5 && sweep[2] == center
    ensures forall k :: 0 <= k < 5 ==> sweep[k] == center + (k - 2) as real
  {
    [center - 2.0, center - 1.0, center, center + 1.0, center + 2.0]
  }

  /** The MOIC of the sweep at one exit multiple: exit EBITDA at that multiple,
      less exit debt, over the equity paid in. */
  function SensitivityMoic(exitEbitda: real, multiple: real, exitDebt: real, equityAmount: real): (r: Option<real>)
    ensures r.Some? <==> equityAmount != 0.0
  {
    Returns.Moic(Returns.ExitEquity(exitEbitda, multiple, exitDebt), equityAmount)
  }

  /** With positive exit EBITDA and equity, a higher exit multiple gives a
      strictly higher MOIC. */
  lemma SensitivityMoicIncreasing(exitEbitda: real, exitDebt: real, equityAmount: real, low: real, high: real)
    requires exitEbitda > 0.0 && equityAmount > 0.0 && low < high
    ensures SensitivityMoic(exitEbitda, low, exitDebt, equityAmount).Some?
    ensures SensitivityMoic(exitEbitda, high, exitDebt, equityAmount).Some?
    ensures SensitivityMoic(exitEbitda, low, exitDebt, equityAmount).value <
            SensitivityMoic(exitEbitda, high, exitDebt, equityAmount).value
  {
    var lowEquity := Returns.ExitEquity(exitEbitda, low, exitDebt);
    var highEquity := Returns.ExitEquity(exitEbitda, high, exitDebt);
    assert highEquity - lowEquity == exitEbitda * (high - low);
    assert lowEquity < highEquity;
    DividedKeepsStrictOrder(lowEquity, highEquity, equityAmount);
  }

  lemma DividedKeepsStrictOrder(smaller: real, larger: real, divisor: real)
    requires smaller < larger && divisor > 0.0
    ensures smaller / divisor < larger / divisor
  {
  }

  /** Across the default sweep of exit multiples the MOICs strictly increase,
      and the middle one is the MOIC of the run itself. */
  lemma SweepMoics(equityAmount: real, exitMultiple: real, ebitda: seq<real>, debt: seq<real>, lfcf: seq<real>, i: nat, j: nat)
    requires |ebitda| == |debt| == |lfcf| >= 2
    requires ebitda[|ebitda| - 1] > 0.0 && equityAmount > 0.0 && i < j < 5
    ensures var n := |ebitda|;
      var sweep := SweepAround(exitMultiple);
      SensitivityMoic(ebitda[n - 1], sweep[i], debt[n - 1], equityAmount).value <
        SensitivityMoic(ebitda[n - 1], sweep[j], debt[n - 1], equityAmount).value
    ensures SensitivityMoic(ebitda[|ebitda| - 1], SweepAround(exitMultiple)[2], debt[|debt| - 1], equityAmount) ==
              Returns.MetricsFrom(equityAmount, exitMultiple, ebitda, debt, lfcf).moic
  {
    var n := |ebitda|;
    var sweep := SweepAround(exitMultiple);
    SensitivityMoicIncreasing(ebitda[n - 1], debt[n - 1], equityAmount, sweep[i], sweep[j]);
  }

  /** The IRR the sweep reports for one exit multiple, on the two flows
      [-equity, exit equity], is that multiple's MOIC less one. */
  lemma SensitivityIrr(exitEbitda: real, multiple: real, exitDebt: real, equityAmount: real, rate: real)
    requires equityAmount > 0.0 && Returns.ExitEquity(exitEbitda, multiple, exitDebt) > 0.0 && rate > -1.0
    ensures Returns.Npv([-equityAmount, Returns.ExitEquity(exitEbitda, multiple, exitDebt)], rate) == 0.0 <==>
              rate == SensitivityMoic(exitEbitda, multiple, exitDebt, equityAmount).value - 1.0
  {
    Returns.TwoFlowIrr(equityAmount, Returns.ExitEquity(exitEbitda, multiple, exitDebt), rate);
  }

  // ----- Temporary models for the growth and margin sweeps -----

  /** The constructor arguments of the temporary model for one revenue growth
      (a percentage), as the sweep passes them: the stored fractions turned back
      into percentages, and no tax rate, so the default applies. */
  function GrowthSweepInputs(a: Assumptions, growth: real): (raw: RawInputs)
  {
    RawInputs(a.companyName, a.entryYear, a.exitYear, a.revenueEntry,
              a.ebitdaMarginEntry * 100.0, growth, a.ebitdaMarginExit * 100.0,
              a.capexPercent * 100.0, a.dso, a.dpo, a.dsi, a.purchasePriceMultiple,
              a.debtPercentage * 100.0, a.interestRate * 100.0, a.amortizationYears,
              DEFAULT_TAX_RATE)
  }

  /** The same for one exit EBITDA margin (a percentage). */
  function MarginSweepInputs(a: Assumptions, margin: real): (raw: RawInputs)
  {
    RawInputs(a.companyName, a.entryYear, a.exitYear, a.revenueEntry,
              a.ebitdaMarginEntry * 100.0, a.revenueGrowth * 100.0, margin,
              a.capexPercent * 100.0, a.dso, a.dpo, a.dsi, a.purchasePriceMultiple,
              a.debtPercentage * 100.0, a.interestRate * 100.0, a.amortizationYears,
              DEFAULT_TAX_RATE)
  }

  /** As written, a temporary model differs from the base run in the swept
      parameter and also in the tax rate, which falls back to the default; so
      the centre of the growth sweep reproduces the base run exactly when the
      base run used the default tax rate. */
  lemma SweepResetsTaxRate(a: Assumptions, growth: real, margin: real)
    ensures Normalize(GrowthSweepInputs(a, growth)) ==
              a.(revenueGrowth := growth / 100.0, taxRate := DEFAULT_TAX_RATE)
    ensures Normalize(MarginSweepInputs(a, margin)) ==
              a.(ebitdaMarginExit := margin / 100.0, taxRate := DEFAULT_TAX_RATE)
    ensures Normalize(GrowthSweepInputs(a, SweepAround(a.revenueGrowth * 100.0)[2])) == a <==>
              a.taxRate == DEFAULT_TAX_RATE
  {
  }

  /** The temporary-model arguments with the base run's tax rate passed on. */
  function GrowthSweepInputsKeepingTax(a: Assumptions, growth: real): (raw: RawInputs)
  {
    GrowthSweepInputs(a, growth).(taxRate := a.taxRate)
  }

  function MarginSweepInputsKeepingTax(a: Assumptions, margin: real): (raw: RawInputs)
  {
    MarginSweepInputs(a, margin).(taxRate := a.taxRate)
  }

  /** Passing the tax rate on, a temporary model differs from the base run in
      the swept parameter only, and the centre of each sweep is the base run. */
  lemma SweepKeepingTaxVariesOneParameter(a: Assumptions, growth: real, margin: real)
    ensures Normalize(GrowthSweepInputsKeepingTax(a, growth)) == a.(revenueGrowth := growth / 100.0)
    ensures Normalize(MarginSweepInputsKeepingTax(a, margin)) == a.(ebitdaMarginExit := margin / 100.0)
    ensures Normalize(GrowthSweepInputsKeepingTax(a, SweepAround(a.revenueGrowth * 100.0)[2])) == a
    ensures Normalize(MarginSweepInputsKeepingTax(a, SweepAround(a.ebitdaMarginExit * 100.0)[2])) == a
  {
  }
}
