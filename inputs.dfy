/** The assumptions of one model run: the raw constructor arguments, their
    normalised form, the conditions under which the engine raises instead of
    producing statements, the timeline and the financing split. */
module Inputs {
  import opened Common

  /** Default corporate tax rate of the constructor, already a fraction. */
  const DEFAULT_TAX_RATE: real := 0.21

  /** The constructor's arguments as the caller passes them: margins, growth,
      capex, debt share and interest rate as percentages (25 means 25%). */
  datatype RawInputs = RawInputs(
    companyName: string,
    entryYear: int,
    exitYear: int,
    revenueEntry: real,
    ebitdaMarginEntry: real,
    revenueGrowth: real,
    ebitdaMarginExit: real,
    capexPercent: real,
    dso: real,
    dpo: real,
    dsi: real,
    purchasePriceMultiple: real,
    debtPercentage: real,
    interestRate: real,
    amortizationYears: int,
    taxRate: real)

  /** The parameters the model stores: percentages turned into fractions,
      everything else as given. */
  datatype Assumptions = Assumptions(
    companyName: string,
    entryYear: int,
    exitYear: int,
    revenueEntry: real,
    ebitdaMarginEntry: real,
    revenueGrowth: real,
    ebitdaMarginExit: real,
    capexPercent: real,
    dso: real,
    dpo: real,
    dsi: real,
    purchasePriceMultiple: real,
    debtPercentage: real,
    interestRate: real,
    amortizationYears: int,
    taxRate: real)

  /** The constructor's field initialisation. */
  function Normalize(raw: RawInputs): (a: Assumptions)
    // the six percentage inputs are stored as fractions of 100
    ensures a.ebitdaMarginEntry * 100.0 == raw.ebitdaMarginEntry
    ensures a.revenueGrowth * 100.0 == raw.revenueGrowth
    ensures a.ebitdaMarginExit * 100.0 == raw.ebitdaMarginExit
    ensures a.capexPercent * 100.0 == raw.capexPercent
    ensures a.debtPercentage * 100.0 == raw.debtPercentage
    ensures a.interestRate * 100.0 == raw.interestRate
    // the tax rate is already a fraction and is stored unchanged, as are the rest
    ensures a.taxRate == raw.taxRate
    ensures a.companyName == raw.companyName
    ensures a.entryYear == raw.entryYear && a.exitYear == raw.exitYear
    ensures a.revenueEntry == raw.revenueEntry
    ensures a.dso == raw.dso && a.dpo == raw.dpo && a.dsi == raw.dsi
    ensures a.purchasePriceMultiple == raw.purchasePriceMultiple
    ensures a.amortizationYears == raw.amortizationYears
  {
    Assumptions(
      raw.companyName, raw.entryYear, raw.exitYear, raw.revenueEntry,
      raw.ebitdaMarginEntry / 100.0, raw.revenueGrowth / 100.0,
      raw.ebitdaMarginExit / 100.0, raw.capexPercent / 100.0,
      raw.dso, raw.dpo, raw.dsi, raw.purchasePriceMultiple,
      raw.debtPercentage / 100.0, raw.interestRate / 100.0,
      raw.amortizationYears, raw.taxRate)
  }

  function HoldingPeriod(a: Assumptions): (years: int)
  {
    a.exitYear - a.entryYear
  }

  /** The contiguous calendar years from entry to exit, both included. */
  function Years(a: Assumptions): (ys: seq<int>)
    ensures |ys| == if a.exitYear >= a.entryYear then HoldingPeriod(a) + 1 else 0
    ensures forall y :: y in ys <==> a.entryYear <= y <= a.exitYear
    ensures forall i, j :: 0 <= i < j < |ys| ==> ys[i] < ys[j]
  {
    var n := if a.exitYear >= a.entryYear then a.exitYear - a.entryYear + 1 else 0;
    var ys := seq(n, t => a.entryYear + t);
    assert forall y :: a.entryYear <= y <= a.exitYear ==> y in ys by {
      forall y | a.entryYear <= y <= a.exitYear ensures y in ys {
        assert ys[y - a.entryYear] == y;
      }
    }
    ys
  }

  function NumYears(a: Assumptions): (n: nat)
  {
    |Years(a)|
  }

  /** Where the constructor raises instead of finishing. */
  datatype Failure =
    | MarginStepByZero       // one year only: the margin step divides by num_years - 1 = 0
    | InstallmentByZero      // amortization_years = 0: the annual installment divides by zero
    | ColumnLengthMismatch   // no year at all: the empty amortisation list does not fit the one-row cash-flow table

  /** The inputs the engine runs to completion on. */
  predicate Runnable(a: Assumptions)
  {
    a.exitYear > a.entryYear && a.amortizationYears != 0
  }

  /** The first exception the constructor raises, in the order it reaches them. */
  function FailureOf(a: Assumptions): (f: Option<Failure>)
    ensures f == None <==> Runnable(a)
    ensures f == Some(MarginStepByZero) <==> a.exitYear == a.entryYear
    ensures f == Some(InstallmentByZero) <==> a.exitYear != a.entryYear && a.amortizationYears == 0
  {
    var n := NumYears(a);
    if n == 1 then Some(MarginStepByZero)
    else if a.amortizationYears == 0 then Some(InstallmentByZero)
    else if n == 0 then Some(ColumnLengthMismatch)
    else None
  }

  /** The entry valuation and the split of the purchase price. */
  datatype Financing = Financing(
    entryEbitda: real,
    purchasePrice: real,
    debtAmount: real,
    equityAmount: real)

  /** The entry valuation and its financing: EBITDA at the entry margin, the
      price at the purchase multiple, and the price split by the debt share. */
  function Setup(a: Assumptions): (f: Financing)
    ensures f.debtAmount + f.equityAmount == f.purchasePrice
  {
    var entryEbitda := a.revenueEntry * a.ebitdaMarginEntry;
    var purchasePrice := entryEbitda * a.purchasePriceMultiple;
    var debtAmount := purchasePrice * a.debtPercentage;
    Financing(entryEbitda, purchasePrice, debtAmount, purchasePrice - debtAmount)
  }

  /** Debt and equity together pay the whole price, equity the share the debt
      leaves; with a non-negative price and a debt share between 0 and 100%,
      neither part is negative or more than the price. */
  lemma SetupSplitsPrice(a: Assumptions)
    ensures var f := Setup(a);
      && f.debtAmount + f.equityAmount == f.purchasePrice
      && f.equityAmount == f.purchasePrice * (1.0 - a.debtPercentage)
      && (f.purchasePrice >= 0.0 && 0.0 <= a.debtPercentage <= 1.0 ==>
            0.0 <= f.debtAmount <= f.purchasePrice && 0.0 <= f.equityAmount <= f.purchasePrice)
  {
    var f := Setup(a);
    var price, share := f.purchasePrice, a.debtPercentage;
    assert f.debtAmount == price * share;
    assert price - price * share == price * (1.0 - share);
    if price >= 0.0 && 0.0 <= share <= 1.0 {
      ShareOfPrice(price, share);
    }
  }

  /** A share between 0 and 100% of a non-negative price lies between 0 and the price. */
  lemma ShareOfPrice(price: real, share: real)
    requires price >= 0.0 && 0.0 <= share <= 1.0
    ensures 0.0 <= price * share <= price
    ensures 0.0 <= price - price * share <= price
  {
    ScaleKeepsOrder(0.0, share, price);
    ScaleKeepsOrder(share, 1.0, price);
  }

  /** The fixed yearly installment: the debt spread evenly over the amortisation years. */
  function Installment(a: Assumptions, debtAmount: real): (installment: real)
    requires a.amortizationYears != 0
  {
    debtAmount / a.amortizationYears as real
  }

  /** The installments of all amortisation years add up to the debt. */
  lemma InstallmentSpreadsDebt(a: Assumptions, debtAmount: real)
    requires a.amortizationYears != 0
    ensures Installment(a, debtAmount) * a.amortizationYears as real == debtAmount
  {
  }

  /** A non-negative debt over a positive number of years has a non-negative
      installment, and a positive debt a positive one. */
  lemma InstallmentSign(a: Assumptions, debtAmount: real)
    requires a.amortizationYears > 0 && debtAmount >= 0.0
    ensures Installment(a, debtAmount) >= 0.0
    ensures debtAmount > 0.0 ==> Installment(a, debtAmount) > 0.0
  {
  }
}
