/** The projected cash-flow statement: net income plus depreciation, the
    working-capital change implied by receivable, payable and inventory days,
    capital expenditure, principal payments and interest, and the running total
    of levered free cash flow. */
module CashFlow {
  import opened Common
  import opened Inputs
  import Income
  import Debt

  /** Days per year in the working-capital conversion. */
  const DAYS_PER_YEAR: real := 365.0

  /** One column per line item, one entry per year (index t = year - entry year). */
  datatype CashFlowStatement = CashFlowStatement(
    netIncome: seq<real>,
    depreciationAndAmortization: seq<real>,
    workingCapitalChange: seq<real>,
    capex: seq<real>,
    debtAmortization: seq<real>,
    interestPaid: seq<real>,
    fcf: seq<real>,
    lfcf: seq<real>,
    cumulativeFcf: seq<real>)

  predicate HasYears(c: CashFlowStatement, n: nat)
  {
    && |c.netIncome| == n && |c.depreciationAndAmortization| == n
    && |c.workingCapitalChange| == n && |c.capex| == n && |c.debtAmortization| == n
    && |c.interestPaid| == n && |c.fcf| == n && |c.lfcf| == n && |c.cumulativeFcf| == n
  }

  /** Payable days less receivable and inventory days, as a fraction of a year. */
  function NetDays(a: Assumptions): (days: real)
  {
    (a.dpo - a.dso - a.dsi) / DAYS_PER_YEAR
  }

  /** Year-on-year change in revenue, with no change in the first year. */
  function RevenueChange(revenue: seq<real>): (change: seq<real>)
  {
    seq(|revenue|, t requires 0 <= t < |revenue| => if t == 0 then 0.0 else revenue[t] - revenue[t - 1])
  }

  /** The working-capital change of each year: the increase in payables less the
      increases in receivables and inventory, each the revenue change scaled by
      its days outstanding. */
  function WorkingCapitalChange(a: Assumptions, revenue: seq<real>): (w: seq<real>)
    ensures |w| == |revenue|
  {
    var change := RevenueChange(revenue);
    var arChange := Divided(Scaled(change, a.dso), DAYS_PER_YEAR);
    var invChange := Divided(Scaled(change, a.dsi), DAYS_PER_YEAR);
    var apChange := Divided(Scaled(change, a.dpo), DAYS_PER_YEAR);
    Minus(apChange, Plus(arChange, invChange))
  }

  /** Working capital does not move in the first year; afterwards it moves by
      the revenue change times payable days less receivable and inventory days,
      in years. */
  lemma WorkingCapitalStep(a: Assumptions, revenue: seq<real>, t: nat)
    requires t < |revenue|
    ensures WorkingCapitalChange(a, revenue)[0] == 0.0
    ensures t >= 1 ==> WorkingCapitalChange(a, revenue)[t] == (revenue[t] - revenue[t - 1]) * NetDays(a)
  {
    if t >= 1 {
      DaysCombine(revenue[t] - revenue[t - 1], a.dso, a.dsi, a.dpo);
    }
  }

  lemma DaysCombine(d: real, dso: real, dsi: real, dpo: real)
    ensures d * dpo / DAYS_PER_YEAR - (d * dso / DAYS_PER_YEAR + d * dsi / DAYS_PER_YEAR)
            == d * ((dpo - dso - dsi) / DAYS_PER_YEAR)
  {
  }

  /** Added up from the first year, the working-capital changes are the change
      in revenue since entry times the net days. */
  lemma {:induction false} WorkingCapitalTelescopes(a: Assumptions, revenue: seq<real>, t: nat)
    requires t < |revenue|
    ensures Sum(WorkingCapitalChange(a, revenue)[..t + 1]) == (revenue[t] - revenue[0]) * NetDays(a)
  {
    var w := WorkingCapitalChange(a, revenue);
    WorkingCapitalStep(a, revenue, t);
    if t == 0 {
      assert w[..1][..0] == [];
    } else {
      WorkingCapitalTelescopes(a, revenue, t - 1);
      assert w[..t + 1][..t] == w[..t];
      Telescope(revenue[0], revenue[t - 1], revenue[t], NetDays(a));
    }
  }

  lemma Telescope(first: real, middle: real, last: real, k: real)
    ensures (middle - first) * k + (last - middle) * k == (last - first) * k
  {
  }

  /** The statement given the income statement it reads and the amortisation column. */
  function StatementFrom(a: Assumptions, income: Income.IncomeStatement, amortization: seq<real>): (c: CashFlowStatement)
    requires Income.HasYears(income, |amortization|)
    ensures HasYears(c, |amortization|)
  {
    var workingCapital := WorkingCapitalChange(a, income.revenue);
    var capex := Scaled(Negated(income.revenue), a.capexPercent);
    var interestPaid := Negated(income.interestExpense);
    var fcf := Plus(Plus(Plus(income.netIncome, income.depreciation), workingCapital), capex);
    var lfcf := Plus(Plus(fcf, amortization), interestPaid);
    CashFlowStatement(income.netIncome, income.depreciation, workingCapital, capex,
                      amortization, interestPaid, fcf, lfcf, CumSum(lfcf))
  }

  /** The cash-flow statement of a run whose debt is debtAmount. */
  function Statement(a: Assumptions, debtAmount: real, n: nat): (c: CashFlowStatement)
    requires n >= 2 && a.amortizationYears != 0
    ensures HasYears(c, n)
  {
    StatementFrom(a, Income.Statement(a, debtAmount, n),
                  Debt.Amortization(debtAmount, Installment(a, debtAmount), n))
  }

  /** Free cash flow adds depreciation back to net income and takes off the
      working-capital build and capex; levered free cash flow then pays that
      year's principal and interest. */
  lemma FreeCashFlows(a: Assumptions, debtAmount: real, n: nat, t: nat)
    requires n >= 2 && a.amortizationYears != 0 && t < n
    ensures var income := Income.Statement(a, debtAmount, n);
      var c := Statement(a, debtAmount, n);
      && c.netIncome[t] == income.netIncome[t]
      && c.depreciationAndAmortization[t] == income.depreciation[t]
      && c.fcf[t] == income.netIncome[t] + income.depreciation[t] + c.workingCapitalChange[t] + c.capex[t]
      && c.lfcf[t] == c.fcf[t] - Debt.Payment(debtAmount, Installment(a, debtAmount), t) - income.interestExpense[t]
  {
  }

  /** Capex is the capex share of revenue paid out, and depreciation added back
      is 80% of it. */
  lemma DepreciationFromCapex(a: Assumptions, debtAmount: real, n: nat, t: nat)
    requires n >= 2 && a.amortizationYears != 0 && t < n
    ensures var c := Statement(a, debtAmount, n);
      && c.capex[t] == -(Income.Statement(a, debtAmount, n).revenue[t] * a.capexPercent)
      && c.depreciationAndAmortization[t] == -Income.DEPRECIATION_SHARE_OF_CAPEX * c.capex[t]
  {
    var revenue := Income.Statement(a, debtAmount, n).revenue;
    ShareOfOutflow(revenue, a.capexPercent, Income.DEPRECIATION_SHARE_OF_CAPEX, t);
  }

  /** Scaling a column by c and then k is -k times the outflow of the column scaled by c. */
  lemma ShareOfOutflow(xs: seq<real>, c: real, k: real, t: nat)
    requires t < |xs|
    ensures Scaled(Negated(xs), c)[t] == -(xs[t] * c)
    ensures Scaled(Scaled(xs, c), k)[t] == -k * Scaled(Negated(xs), c)[t]
  {
    assert (-xs[t]) * c == -(xs[t] * c);
  }

  /** The cumulative column is the sum of levered free cash flow from the
      first year up to and including year t. */
  lemma CumulativeIsPrefixSum(a: Assumptions, debtAmount: real, n: nat, t: nat)
    requires n >= 2 && a.amortizationYears != 0 && t < n
    ensures Statement(a, debtAmount, n).cumulativeFcf[t] == Sum(Statement(a, debtAmount, n).lfcf[..t + 1])
  {
    CumSumIsPrefixSum(Statement(a, debtAmount, n).lfcf, t);
  }

  /** No principal is paid in the acquisition year; every later payment is at
      most one installment, and all of them together at most the debt. */
  lemma AmortizationBounds(a: Assumptions, debtAmount: real, n: nat, t: nat)
    requires n >= 2 && a.amortizationYears > 0 && debtAmount >= 0.0 && t < n
    ensures var c := Statement(a, debtAmount, n);
      && c.debtAmortization[0] == 0.0
      && -Installment(a, debtAmount) <= c.debtAmortization[t] <= 0.0
      && 0.0 <= -Sum(c.debtAmortization[1..]) <= debtAmount
  {
    var p := Installment(a, debtAmount);
    InstallmentSpreadsDebt(a, debtAmount);
    Debt.PaymentBounds(debtAmount, p, t);
    Debt.TotalRepaid(debtAmount, p, n);
  }
}
