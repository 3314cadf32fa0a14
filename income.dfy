/** The projected income statement: geometric revenue, a margin interpolated
    linearly from entry to exit, depreciation tied to capex, interest on the
    remaining debt of the same year and tax floored at zero. */
module Income {
  import opened Common
  import opened Inputs
  import Debt

  /** Depreciation is taken as this share of the year's capital expenditure. */
  const DEPRECIATION_SHARE_OF_CAPEX: real := 0.8

  /** One column per line item, one entry per year (index t = year - entry year). */
  datatype IncomeStatement = IncomeStatement(
    revenue: seq<real>,
    ebitdaMargin: seq<real>,
    ebitda: seq<real>,
    depreciation: seq<real>,
    ebit: seq<real>,
    interestExpense: seq<real>,
    ebt: seq<real>,
    tax: seq<real>,
    netIncome: seq<real>)

  predicate HasYears(s: IncomeStatement, n: nat)
  {
    && |s.revenue| == n && |s.ebitdaMargin| == n && |s.ebitda| == n
    && |s.depreciation| == n && |s.ebit| == n && |s.interestExpense| == n
    && |s.ebt| == n && |s.tax| == n && |s.netIncome| == n
  }

  /** Revenue compounding at the growth rate from the entry revenue. */
  function Revenue(a: Assumptions, n: nat): (r: seq<real>)
    ensures |r| == n
  {
    seq(n, t requires t >= 0 => a.revenueEntry * Pow(1.0 + a.revenueGrowth, t))
  }

  /** Revenue starts at the entry revenue and grows by the growth rate each year. */
  lemma RevenueCompounds(a: Assumptions, n: nat, t: nat)
    requires t < n
    ensures Revenue(a, n)[0] == a.revenueEntry
    ensures t >= 1 ==> Revenue(a, n)[t] == Revenue(a, n)[t - 1] * (1.0 + a.revenueGrowth)
  {
    if t >= 1 {
      CompoundOneYear(a.revenueEntry, 1.0 + a.revenueGrowth, t);
    }
  }

  /** One more year of compounding multiplies by the growth factor. */
  lemma CompoundOneYear(base: real, factor: real, t: nat)
    requires t >= 1
    ensures base * Pow(factor, t) == base * Pow(factor, t - 1) * factor
  {
    var before := Pow(factor, t - 1);
    assert Pow(factor, t) == factor * before;
    assert base * (factor * before) == base * before * factor;
  }

  /** A positive entry revenue never falls under non-negative growth, and rises
      every year under positive growth. */
  lemma {:induction false} RevenueMonotone(a: Assumptions, n: nat, i: nat, j: nat)
    requires a.revenueEntry > 0.0 && a.revenueGrowth >= 0.0
    requires i <= j < n
    ensures Revenue(a, n)[j] > 0.0
    ensures Revenue(a, n)[i] <= Revenue(a, n)[j]
    ensures a.revenueGrowth > 0.0 && i < j ==> Revenue(a, n)[i] < Revenue(a, n)[j]
  {
    var r := Revenue(a, n);
    if j == 0 {
      RevenueCompounds(a, n, 0);
    } else if i == j {
      RevenueMonotone(a, n, 0, j);
    } else {
      RevenueMonotone(a, n, i, j - 1);
      RevenueCompounds(a, n, j);
      GrowthStep(r[j - 1], a.revenueGrowth);
    }
  }

  /** Growing a positive amount at a non-negative rate does not shrink it, and
      at a positive rate makes it larger. */
  lemma GrowthStep(amount: real, growth: real)
    requires amount > 0.0 && growth >= 0.0
    ensures amount * (1.0 + growth) >= amount
    ensures growth > 0.0 ==> amount * (1.0 + growth) > amount
  {
    assert amount * (1.0 + growth) == amount + amount * growth;
  }

  /** The EBITDA margin of each year, stepping evenly from the entry margin.
      Needs two years at least: the step divides by the number of years less one. */
  function EbitdaMargin(a: Assumptions, n: nat): (m: seq<real>)
    requires n >= 2
    ensures |m| == n
  {
    var step := (a.ebitdaMarginExit - a.ebitdaMarginEntry) / (n - 1) as real;
    seq(n, t requires t >= 0 => a.ebitdaMarginEntry + step * t as real)
  }

  /** The margin is the entry margin in the first year and the exit margin in
      the last, and moves by the same step every year in between. */
  lemma MarginInterpolates(a: Assumptions, n: nat, t: nat)
    requires n >= 2 && 1 <= t < n
    ensures EbitdaMargin(a, n)[0] == a.ebitdaMarginEntry
    ensures EbitdaMargin(a, n)[n - 1] == a.ebitdaMarginExit
    ensures EbitdaMargin(a, n)[t] - EbitdaMargin(a, n)[t - 1] ==
              (a.ebitdaMarginExit - a.ebitdaMarginEntry) / (n - 1) as real
  {
    StepsAddUp(a.ebitdaMarginExit - a.ebitdaMarginEntry, n - 1, t);
  }

  /** n - 1 equal steps cover the whole distance; consecutive multiples differ by one step. */
  lemma StepsAddUp(distance: real, parts: nat, t: nat)
    requires parts >= 1 && t >= 1
    ensures (distance / parts as real) * parts as real == distance
    ensures (distance / parts as real) * t as real - (distance / parts as real) * (t - 1) as real
            == distance / parts as real
  {
  }

  /** Tax on one year's pre-tax earnings: no benefit when the product is negative. */
  function Tax(ebt: real, taxRate: real): (tax: real)
    ensures tax >= 0.0 && tax >= ebt * taxRate
    ensures tax == 0.0 || tax == ebt * taxRate
  {
    Max(0.0, ebt * taxRate)
  }

  /** The tax column: Tax applied to every year's pre-tax earnings. */
  function TaxColumn(ebt: seq<real>, taxRate: real): (r: seq<real>)
    ensures |r| == |ebt|
  {
    seq(|ebt|, t requires 0 <= t < |ebt| => Tax(ebt[t], taxRate))
  }

  /** The statement given the remaining-debt list the interest is charged on. */
  function StatementFrom(a: Assumptions, n: nat, remainingDebt: seq<real>): (s: IncomeStatement)
    requires n >= 2 && |remainingDebt| == n
    ensures HasYears(s, n)
  {
    var revenue := Revenue(a, n);
    var margin := EbitdaMargin(a, n);
    var ebitda := Times(revenue, margin);
    var depreciation := Scaled(Scaled(revenue, a.capexPercent), DEPRECIATION_SHARE_OF_CAPEX);
    var ebit := Minus(ebitda, depreciation);
    var interest := Scaled(remainingDebt, a.interestRate);
    var ebt := Minus(ebit, interest);
    var tax := TaxColumn(ebt, a.taxRate);
    IncomeStatement(revenue, margin, ebitda, depreciation, ebit, interest, ebt, tax, Minus(ebt, tax))
  }

  /** The income statement of a run whose debt is debtAmount. */
  function Statement(a: Assumptions, debtAmount: real, n: nat): (s: IncomeStatement)
    requires n >= 2 && a.amortizationYears != 0
    ensures HasYears(s, n)
  {
    StatementFrom(a, n, Debt.RemainingDebt(debtAmount, Installment(a, debtAmount), n))
  }

  /** EBITDA starts at the entry EBITDA the price is set on and ends at the
      last year's revenue times the exit margin. */
  lemma EbitdaEndpoints(a: Assumptions, debtAmount: real, n: nat)
    requires n >= 2 && a.amortizationYears != 0
    ensures Statement(a, debtAmount, n).ebitda[0] == Setup(a).entryEbitda
    ensures Statement(a, debtAmount, n).ebitda[n - 1] ==
              Statement(a, debtAmount, n).revenue[n - 1] * a.ebitdaMarginExit
  {
  }

  /** Net income is pre-tax earnings less a tax that is never negative: the
      full rate applies to a profit, and a loss passes through untaxed. */
  lemma NetIncomeAfterTax(a: Assumptions, debtAmount: real, n: nat, t: nat)
    requires n >= 2 && a.amortizationYears != 0 && t < n
    ensures var s := Statement(a, debtAmount, n);
      && s.tax[t] >= 0.0
      && s.tax[t] == Tax(s.ebt[t], a.taxRate)
      && s.netIncome[t] == s.ebt[t] - s.tax[t]
      && s.netIncome[t] <= s.ebt[t]
      && s.ebt[t] == s.ebitda[t] - s.depreciation[t] - s.interestExpense[t]
      && (a.taxRate >= 0.0 && s.ebt[t] >= 0.0 ==>
            s.tax[t] == s.ebt[t] * a.taxRate && s.netIncome[t] == s.ebt[t] * (1.0 - a.taxRate))
      && (a.taxRate >= 0.0 && s.ebt[t] < 0.0 ==> s.tax[t] == 0.0 && s.netIncome[t] == s.ebt[t])
  {
    var s := Statement(a, debtAmount, n);
    if a.taxRate >= 0.0 && s.ebt[t] < 0.0 {
      assert s.ebt[t] * a.taxRate <= 0.0;
    }
  }

  /** Interest of year t is charged on the debt remaining after that year's
      installment; in the acquisition year that is the full debt. */
  lemma InterestOnRemainingDebt(a: Assumptions, debtAmount: real, n: nat, t: nat)
    requires n >= 2 && a.amortizationYears != 0 && t < n
    ensures Statement(a, debtAmount, n).interestExpense[t] ==
              Debt.DebtAfter(debtAmount, Installment(a, debtAmount), t) * a.interestRate
  {
  }

  /** In the acquisition year interest is charged on the whole debt. */
  lemma InterestOnEntryDebt(a: Assumptions, debtAmount: real, n: nat)
    requires n >= 2 && a.amortizationYears != 0
    ensures Statement(a, debtAmount, n).interestExpense[0] == debtAmount * a.interestRate
  {
    InterestOnRemainingDebt(a, debtAmount, n, 0);
  }

  /** With a non-negative debt amortised over a positive number of years, the
      interest of year t is the rate on the debt less t installments. */
  lemma InterestClosedForm(a: Assumptions, debtAmount: real, n: nat, t: nat)
    requires n >= 2 && a.amortizationYears > 0 && debtAmount >= 0.0 && t < n
    ensures Statement(a, debtAmount, n).interestExpense[t] ==
              Max(0.0, debtAmount - t as real * Installment(a, debtAmount)) * a.interestRate
  {
    InstallmentSign(a, debtAmount);
    Debt.ChargeClosedForm(debtAmount, Installment(a, debtAmount), a.interestRate, t);
    InterestOnRemainingDebt(a, debtAmount, n, t);
  }

  /** No interest is charged once the amortisation years have run out. */
  lemma InterestEndsWithAmortization(a: Assumptions, debtAmount: real, n: nat, t: nat)
    requires n >= 2 && a.amortizationYears > 0 && debtAmount >= 0.0 && a.amortizationYears <= t < n
    ensures Statement(a, debtAmount, n).interestExpense[t] == 0.0
  {
    InterestOnRemainingDebt(a, debtAmount, n, t);
    Debt.InstallmentsRetireDebt(debtAmount, a.amortizationYears, t);
  }

  /** At a non-negative rate the interest never rises from one year to the next. */
  lemma InterestNonIncreasing(a: Assumptions, debtAmount: real, n: nat, t: nat)
    requires n >= 2 && a.amortizationYears > 0 && debtAmount >= 0.0 && a.interestRate >= 0.0
    requires 0 < t < n
    ensures Statement(a, debtAmount, n).interestExpense[t] <= Statement(a, debtAmount, n).interestExpense[t - 1]
  {
    var p := Installment(a, debtAmount);
    InstallmentSign(a, debtAmount);
    var remaining := Debt.RemainingDebt(debtAmount, p, n);
    Debt.DebtAfterNonIncreasing(debtAmount, p, t - 1, t);
    ScaledKeepsDecrease(remaining, a.interestRate, t);
  }
}
